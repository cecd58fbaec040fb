/**
 The names of a header map add up: a map that lacks one of the printed headers, or has it under a
 shorter name, has a smaller total.
 */
module HeaderTotals {
  import opened HttpText

  /** The lengths of the keys, added up. */
  ghost function Total(keys: set<string>): nat {
    if keys == {} then 0
    else
      var k :| k in keys;
      |k| + Total(keys - {k})
  }

  lemma {:induction false} TotalWithout(keys: set<string>, k: string)
    requires k in keys
    ensures Total(keys) == |k| + Total(keys - {k})
    decreases |keys|
  {
    var x :| x in keys && Total(keys) == |x| + Total(keys - {x});
    if x != k {
      TotalWithout(keys - {x}, k);
      TotalWithout(keys - {k}, x);
      assert keys - {x} - {k} == keys - {k} - {x};
    }
  }

  lemma TotalWith(keys: set<string>, k: string)
    ensures Total(keys + {k}) == Total(keys) + (if k in keys then 0 else |k|)
  {
    if k in keys {
      assert keys + {k} == keys;
    } else {
      TotalWithout(keys + {k}, k);
      assert keys + {k} - {k} == keys;
    }
  }

  /** Setting a header adds its name, if it is new. */
  lemma SetTotal(h: Headers, name: string, value: string)
    ensures Total(SetHeader(h, name, value).Keys) == Total(h.Keys) + (if LowerAll(name) in h then 0 else |name|)
  {
    TotalWith(h.Keys, LowerAll(name));
    assert SetHeader(h, name, value).Keys == h.Keys + {LowerAll(name)};
  }

  /** The names of the headers printed from the map, added up. */
  ghost function NamesIn(h: Headers, order: seq<string>): nat
    requires forall i :: 0 <= i < |order| ==> order[i] in h
    decreases |order|
  {
    if order == [] then 0
    else (if order[0] == "connection" then 0 else |h[order[0]].name|) + NamesIn(h, order[1..])
  }

  lemma {:induction false} SetAllTotal(base: Headers, h: Headers, order: seq<string>, blanks: string)
    requires KeyedByName(h) && Distinct(order) && forall i :: 0 <= i < |order| ==> order[i] in h
    requires forall i :: 0 <= i < |order| && order[i] != "connection" ==> order[i] !in base
    ensures Total(SetAll(base, h, order, blanks).Keys) == Total(base.Keys) + NamesIn(h, order)
    decreases |order|
  {
    if order != [] {
      var k, rest := order[0], order[1..];
      assert order == [k] + rest && Distinct(rest) && k !in rest;
      var next := if k == "connection" then base else SetHeader(base, h[k].name, TrimLeft(h[k].value, blanks));
      if k != "connection" {
        SetTotal(base, h[k].name, TrimLeft(h[k].value, blanks));
      }
      assert next.Keys <= base.Keys + {k};
      SetAllTotal(next, h, rest, blanks);
    }
  }

  function OwnNames(body: string): nat {
    |"connection"| + (if body == "" then 0 else |"content-length"|)
  }

  /** No header is printed twice: the printer adds a `content-length` only if there is a body. */
  predicate NamesOnce(h: Headers, body: string) {
    body == "" || "content-length" !in h
  }

  /** A request without a header that is printed twice has every name once. */
  lemma PrintedTotal(h: Headers, order: seq<string>, close: bool, body: string, blanks: string)
    requires KeyedByName(h) && Enumerates(order, h) && NamesOnce(h, body)
    ensures Total(Expected(h, close, body, blanks).Keys) == OwnNames(body) + NamesIn(h, order)
  {
    LowerWords();
    ConnectionFirst(h, order, close, body, blanks);
    var base := SetHeader(map[], "connection", ConnectionWord(close));
    SetTotal(map[], "connection", ConnectionWord(close));
    assert base.Keys == {"connection"};
    SetAllTotal(base, h, order, blanks);
    var all := SetAll(base, h, order, blanks);
    SetAllAdds(base, h, order, blanks, "content-length");
    SetTotal(all, "content-length", Decimal(|body|));
  }
}
