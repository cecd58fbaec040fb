/**
 The method table of requests: every name is read back as its own number.
 */
module RequestMethods {
  import opened Wrappers
  import opened HttpText
  import opened RequestMachine

  function Letter(text: string, k: nat): char {
    if k < |text| then text[k] else ' '
  }

  /** The one method whose name `text` can start with. */
  function Decide(text: string): nat {
    var b := Letter(text, 1);
    match Letter(text, 0)
    case 'D' => 0
    case 'G' => 1
    case 'H' => 2
    case 'P' => (match b
      case 'O' => 3
      case 'U' => if Letter(text, 2) == 'T' then 4 else 29
      case 'R' => if Letter(text, 4) == 'F' then 12 else 13
      case _ => 28)
    case 'C' => if b == 'H' then 22 else if Letter(text, 2) == 'N' then 5 else 8
    case 'O' => 6
    case 'T' => 7
    case 'L' => if b == 'O' then 9 else 31
    case 'M' => (match b
      case 'O' => 11
      case 'E' => 23
      case '-' => 24
      case _ => if Letter(text, 2) == 'A' then 21 else if Letter(text, 3) == 'O' then 10 else 30)
    case 'S' => if b == 'E' then 14 else if b == 'U' then 26 else 33
    case 'U' => (match Letter(text, 2)
      case 'B' => 18
      case 'S' => 27
      case _ => if Letter(text, 3) == 'O' then 15 else 32)
    case 'B' => 16
    case 'R' => if Letter(text, 2) == 'B' then 17 else 20
    case 'A' => 19
    case _ => 25
  }

  /** The letters a name decides on. */
  lemma Letters(name: string, text: string)
    requires name <= text
    ensures forall k :: 0 <= k < |name| ==> Letter(text, k) == name[k]
  {
    assert forall k :: 0 <= k < |name| ==> text[..|name|][k] == name[k];
  }

  lemma DecidesLow(i: nat, text: string)
    requires i < 17 && METHODS[i] <= text
    ensures Decide(text) == i
  {
    Letters(METHODS[i], text);
  }

  lemma DecidesHigh(i: nat, text: string)
    requires 17 <= i < 34 && METHODS[i] <= text
    ensures Decide(text) == i
  {
    Letters(METHODS[i], text);
  }

  predicate MethodName(name: string) {
    0 < |name| <= 20 && forall k :: 0 <= k < |name| ==> IsMethodChar(name[k])
  }

  lemma NamesLow(i: nat)
    requires i < 17
    ensures MethodName(METHODS[i])
  {
  }

  lemma NamesHigh(i: nat)
    requires 17 <= i < 34 && i != 24
    ensures MethodName(METHODS[i])
  {
  }

  lemma OnlyOne(i: nat, j: nat, text: string)
    requires i < 34 && j < 34 && METHODS[i] <= text && METHODS[j] <= text
    ensures i == j
  {
    if j < 17 { DecidesLow(j, text); } else { DecidesHigh(j, text); }
    if i < 17 { DecidesLow(i, text); } else { DecidesHigh(i, text); }
  }

  /** The first match is the only one. */
  lemma {:induction false} FirstMatch(text: string, i: nat, j: nat)
    requires j <= i < 34 && METHODS[i] <= text
    ensures FromChars(METHODS, text, j) == Some(i)
    decreases i - j
  {
    if METHODS[j] <= text {
      OnlyOne(i, j, text);
    } else {
      FirstMatch(text, i, j + 1);
    }
  }

  /** `CharsToHttpMethod` undoes `HttpMethodToString`, whatever follows the name. */
  lemma MethodReadsBack(i: nat, rest: string)
    requires i < 34
    ensures FromChars(METHODS, METHODS[i] + rest, 0) == Some(i)
  {
    FirstMatch(METHODS[i] + rest, i, 0);
  }

  /** Every method but `M-SEARCH` is spelt in letters the table takes. */
  lemma MethodSpelling(i: nat)
    requires i < 34
    ensures MethodName(METHODS[i]) <==> i != 24
  {
    if i == 24 {
      assert METHODS[24] == "M-SEARCH" && !IsMethodChar("M-SEARCH"[1]);
    } else if i < 17 {
      NamesLow(i);
    } else {
      NamesHigh(i);
    }
  }
}
