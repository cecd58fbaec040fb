/**
 The character classes of the parsers, character by character, beside those of the standards.
 */
module CharacterClasses {
  import opened HttpText
  import RequestMachine

  predicate Alpha(c: char) {
    'A' <= c <= 'Z' || 'a' <= c <= 'z'
  }

  predicate Digit09(c: char) {
    '0' <= c <= '9'
  }

  /** A header name of a response is made of the tokens of section 3.2.6 of RFC 7230. */
  lemma TokenChars(c: char)
    ensures IsToken(c) <==>
              || Alpha(c) || Digit09(c)
              || c in ['!', '#', '$', '%', '&', '\'', '*', '+', '-', '.', '^', '_', '`', '|', '~']
  {
    assert '#' < '$' < '%' < '&' < '\'' && '*' < '+' && '-' < '.' && '^' < '_' < '`' < 'a';
  }

  /** The characters of section 3.3 of RFC 3986 that can stand for themselves in a path segment. */
  predicate Pchar(c: char) {
    || Alpha(c) || Digit09(c) || c in ['-', '.', '_', '~']
    || c in ['!', '$', '&', '\'', '(', ')', '*', '+', ',', ';', '=']
    || c == ':' || c == '@'
  }

  /** Without `uri_relaxed`, a path takes just those and the slash, a query and a fragment the question mark as
      well, as sections 3.3, 3.4 and 3.5 of RFC 3986 have it; with it, three more. */
  lemma TargetChars(c: char)
    ensures RequestMachine.IsPartChar(RequestMachine.Path, c, false) <==> Pchar(c) || c == '/'
    ensures RequestMachine.IsPartChar(RequestMachine.Query, c, false) <==> Pchar(c) || c == '/' || c == '?'
    ensures RequestMachine.IsPartChar(RequestMachine.Fragment, c, false) <==> Pchar(c) || c == '/' || c == '?'
    ensures forall part :: RequestMachine.IsPartChar(part, c, true)
                      <==> RequestMachine.IsPartChar(part, c, false) || c in ['^', '{', '}']
  {
    assert '&' < '\'' < '(' < ')' < '*' < '+' < ',' < '-' < '.';
  }

  /** A header value of a request is anything but a break, a NUL and a DEL; only tabs and spaces go in front. */
  lemma ValueChars(c: char)
    ensures RequestMachine.IsValueChar(c) <==> c as int !in [0, 10, 13, 127]
    ensures RequestMachine.IsBlank(c) <==> c as int in [9, 32]
  {
  }
}
