/**
 The methods of a request by enumerator: how each is spelt and numbered.
 */
module RequestVerbs {
  import opened Wrappers
  import opened RequestMachine
  import opened RequestMethods

  /** `HttpMethod`, by enumerator. */
  datatype Verb =
    | Delete | Get | Head | Post | Put | Connect | Options | Trace | Copy | Lock | Mkcol | Move | Propfind
    | Proppatch | Search | Unlock | Bind | Rebind | Unbind | Acl | Report | Mkactivity | Checkout | Merge
    | Msearch | Notify | Subscribe | Unsubscribe | Patch | Purge | Mkcalendar | Link | Unlink | Source

  /** How `HTTP_METHOD_MAP` spells and numbers it. */
  function Spelling(v: Verb): (string, nat) {
    match v
    case Delete => ("DELETE", 0)
    case Get => ("GET", 1)
    case Head => ("HEAD", 2)
    case Post => ("POST", 3)
    case Put => ("PUT", 4)
    case Connect => ("CONNECT", 5)
    case Options => ("OPTIONS", 6)
    case Trace => ("TRACE", 7)
    case Copy => ("COPY", 8)
    case Lock => ("LOCK", 9)
    case Mkcol => ("MKCOL", 10)
    case Move => ("MOVE", 11)
    case Propfind => ("PROPFIND", 12)
    case Proppatch => ("PROPPATCH", 13)
    case Search => ("SEARCH", 14)
    case Unlock => ("UNLOCK", 15)
    case Bind => ("BIND", 16)
    case Rebind => ("REBIND", 17)
    case Unbind => ("UNBIND", 18)
    case Acl => ("ACL", 19)
    case Report => ("REPORT", 20)
    case Mkactivity => ("MKACTIVITY", 21)
    case Checkout => ("CHECKOUT", 22)
    case Merge => ("MERGE", 23)
    case Msearch => ("M-SEARCH", 24)
    case Notify => ("NOTIFY", 25)
    case Subscribe => ("SUBSCRIBE", 26)
    case Unsubscribe => ("UNSUBSCRIBE", 27)
    case Patch => ("PATCH", 28)
    case Purge => ("PURGE", 29)
    case Mkcalendar => ("MKCALENDAR", 30)
    case Link => ("LINK", 31)
    case Unlink => ("UNLINK", 32)
    case Source => ("SOURCE", 33)
  }

  lemma SpeltLow(v: Verb)
    requires Spelling(v).1 < 17
    ensures METHODS[Spelling(v).1] == Spelling(v).0
  {
  }

  lemma SpeltHigh(v: Verb)
    requires 17 <= Spelling(v).1 < 34
    ensures METHODS[Spelling(v).1] == Spelling(v).0
  {
  }

  lemma NumberBound(v: Verb)
    ensures Spelling(v).1 < 34
  {
  }

  /** Each enumerator is printed in its own spelling and read back, whatever follows, as its own number. */
  lemma VerbNumber(v: Verb, rest: string)
    ensures Spelling(v).1 < |METHODS| && METHODS[Spelling(v).1] == Spelling(v).0
    ensures FromChars(METHODS, Spelling(v).0 + rest, 0) == Some(Spelling(v).1)
  {
    NumberBound(v);
    var i := Spelling(v).1;
    assert METHODS[i] == Spelling(v).0 by {
      if i < 17 { SpeltLow(v); } else { SpeltHigh(v); }
    }
    MethodReadsBack(i, rest);
  }
}
