/** The search box: a trimmed term is escaped into a LIKE pattern and matched against five cached columns. */
module LikeSearch {
  import opened Prelude

  // ---------------------------------------------------------------- the term

  /** What Python's `str.strip` takes for whitespace. */
  predicate IsSpace(c: char) {
    var n := c as int;
    || 0x09 <= n <= 0x0D || 0x1C <= n <= 0x20 || n == 0x85 || n == 0xA0 || n == 0x1680
    || 0x2000 <= n <= 0x200A || n == 0x2028 || n == 0x2029 || n == 0x202F || n == 0x205F || n == 0x3000
  }

  predicate Blank(s: string) {
    forall c :: c in s ==> IsSpace(c)
  }

  function StripLeft(s: string): string {
    if s != [] && IsSpace(s[0]) then StripLeft(s[1..]) else s
  }

  function StripRight(s: string): string {
    if s != [] && IsSpace(s[|s| - 1]) then StripRight(s[..|s| - 1]) else s
  }

  function Strip(s: string): string {
    StripRight(StripLeft(s))
  }

  lemma {:induction false} StripLeftParts(s: string) returns (before: string)
    ensures s == before + StripLeft(s) && Blank(before)
    ensures StripLeft(s) != [] ==> !IsSpace(StripLeft(s)[0])
  {
    if s != [] && IsSpace(s[0]) {
      var rest := StripLeftParts(s[1..]);
      before := [s[0]] + rest;
    } else {
      before := [];
    }
  }

  lemma BlankExtends(s: string, c: char)
    requires Blank(s) && IsSpace(c)
    ensures Blank(s + [c])
  {
    hide IsSpace;
  }

  lemma {:induction false} StripRightParts(s: string) returns (after: string)
    ensures s == StripRight(s) + after && Blank(after)
    ensures StripRight(s) != [] ==> !IsSpace(StripRight(s)[|StripRight(s)| - 1]) && StripRight(s)[0] == s[0]
  {
    if s != [] && IsSpace(s[|s| - 1]) {
      var front, last := s[..|s| - 1], s[|s| - 1];
      assert StripRight(s) == StripRight(front);
      var rest := StripRightParts(front);
      after := rest + [last];
      hide *;
      BlankExtends(rest, last);
      assert s == front + [last];
      assert front + [last] == StripRight(front) + (rest + [last]);
    } else {
      after := [];
    }
  }

  /** Stripping takes blanks off both ends and nothing else. */
  lemma StripTrims(s: string) returns (before: string, after: string)
    ensures s == before + Strip(s) + after && Blank(before) && Blank(after)
    ensures Strip(s) != [] ==> !IsSpace(Strip(s)[0]) && !IsSpace(Strip(s)[|Strip(s)| - 1])
  {
    before := StripLeftParts(s);
    after := StripRightParts(StripLeft(s));
  }

  // ---------------------------------------------------------------- escaping

  /** `str.replace` of one character. */
  function Replace(s: string, c: char, with: string): string {
    if s == [] then [] else (if s[0] == c then with else [s[0]]) + Replace(s[1..], c, with)
  }

  /** Three replacements, one after the other. */
  function Escape(term: string): string {
    Replace(Replace(Replace(term, '\\', "\\\\"), '%', "\\%"), '_', "\\_")
  }

  predicate Special(c: char) {
    c == '\\' || c == '%' || c == '_'
  }

  /** Every special character behind a backslash, everything else as it is. */
  function EscapeEach(term: string): string {
    if term == [] then [] else (if Special(term[0]) then ['\\', term[0]] else [term[0]]) + EscapeEach(term[1..])
  }

  lemma {:induction false} ReplaceDistributes(a: string, b: string, c: char, with: string)
    ensures Replace(a + b, c, with) == Replace(a, c, with) + Replace(b, c, with)
  {
    if a == [] {
      assert a + b == b;
    } else {
      assert (a + b)[1..] == a[1..] + b;
      ReplaceDistributes(a[1..], b, c, with);
    }
  }

  lemma ReplaceShort(x: char, y: char, c: char, with: string)
    ensures Replace([x], c, with) == if x == c then with else [x]
    ensures Replace([x, y], c, with) == (if x == c then with else [x]) + (if y == c then with else [y])
  {
    assert [x][1..] == [];
    assert [x, y][1..] == [y];
    assert [y][1..] == [];
  }

  /** The three replacements do not disturb each other. */
  lemma {:induction false} ThreeReplacesAreOne(term: string)
    ensures Escape(term) == EscapeEach(term)
  {
    if term != [] {
      var x, rest := term[0], term[1..];
      ThreeReplacesAreOne(rest);
      var first := if x == '\\' then "\\\\" else [x];
      var second := if x == '%' then "\\%" else first;
      var third := if x == '_' then "\\_" else second;
      var rest1 := Replace(rest, '\\', "\\\\");
      var rest2 := Replace(rest1, '%', "\\%");
      ReplaceShort('\\', x, '%', "\\%");
      ReplaceShort(x, x, '%', "\\%");
      ReplaceShort('\\', x, '_', "\\_");
      ReplaceShort(x, x, '_', "\\_");
      ReplaceDistributes(first, rest1, '%', "\\%");
      ReplaceDistributes(second, rest2, '_', "\\_");
      assert x == '\\' ==> first == ['\\', x];
      assert Replace(first, '%', "\\%") == second;
      assert x == '\\' || x == '%' ==> second == ['\\', x];
      assert Replace(second, '_', "\\_") == third;
      assert Replace(term, '\\', "\\\\") == first + rest1;
      assert Escape(term) == third + Escape(rest);
    }
  }

  // ---------------------------------------------------------------- LIKE

  /** The database folds the case of ASCII letters only. */
  function Lower(s: string): string {
    seq(|s|, i requires 0 <= i < |s| => Fold(s[i]))
  }

  /** `text LIKE pattern ESCAPE '\'`: `%` is any run of characters, `_` any single one, and a backslash makes
      the next character literal; a pattern that ends in a lone backslash matches nothing. */
  ghost predicate Like(pattern: string, text: string)
    decreases |pattern|
  {
    if pattern == [] then text == []
    else if pattern[0] == '\\' then
      |pattern| > 1 && text != [] && text[0] == pattern[1] && Like(pattern[2..], text[1..])
    else if pattern[0] == '%' then exists k :: 0 <= k <= |text| && Like(pattern[1..], text[k..])
    else if pattern[0] == '_' then text != [] && Like(pattern[1..], text[1..])
    else text != [] && text[0] == pattern[0] && Like(pattern[1..], text[1..])
  }

  /** `ilike` compares the lowered sides. */
  ghost predicate Ilike(pattern: string, text: string) {
    Like(Lower(pattern), Lower(text))
  }

  ghost predicate Contains(text: string, part: string) {
    exists k :: 0 <= k <= |text| && part <= text[k..]
  }

  lemma LowerDistributes(a: string, b: string)
    ensures Lower(a + b) == Lower(a) + Lower(b)
  {
  }

  /** Lowering a pattern lowers what it escapes. */
  lemma {:induction false} LowerEscaped(term: string)
    ensures Lower(EscapeEach(term)) == EscapeEach(Lower(term))
  {
    if term != [] {
      LowerEscaped(term[1..]);
      assert Lower(term)[1..] == Lower(term[1..]);
      var head := if Special(term[0]) then ['\\', term[0]] else [term[0]];
      LowerDistributes(head, EscapeEach(term[1..]));
      assert Lower(head) == if Special(Lower(term)[0]) then ['\\', Lower(term)[0]] else [Lower(term)[0]];
    }
  }

  lemma PercentMatchesAnything(text: string)
    ensures Like("%", text)
  {
    assert Like("%"[1..], text[|text|..]);
  }

  /** An escaped term followed by `%` matches the texts that begin with the term. */
  lemma {:induction false} EscapedIsLiteral(term: string, text: string)
    ensures Like(EscapeEach(term) + "%", text) <==> term <= text
  {
    if term == [] {
      assert EscapeEach(term) + "%" == "%";
      PercentMatchesAnything(text);
    } else {
      var pattern, rest := EscapeEach(term) + "%", EscapeEach(term[1..]) + "%";
      if Special(term[0]) {
        assert pattern == ['\\', term[0]] + rest;
        assert pattern[2..] == rest;
      } else {
        assert pattern == [term[0]] + rest;
        assert pattern[1..] == rest;
      }
      if text != [] {
        EscapedIsLiteral(term[1..], text[1..]);
        assert term == [term[0]] + term[1..] && text == [text[0]] + text[1..];
        assert term <= text <==> term[0] == text[0] && term[1..] <= text[1..];
      }
    }
  }

  /** The pattern built from a term accepts exactly the texts that contain the term literally, case aside. */
  lemma EscapedTermMeansContains(term: string, text: string)
    ensures Ilike("%" + Escape(term) + "%", text) <==> Contains(Lower(text), Lower(term))
  {
    ThreeReplacesAreOne(term);
    LowerEscaped(term);
    var pattern := "%" + Escape(term) + "%";
    var escaped := EscapeEach(Lower(term)) + "%";
    LowerDistributes("%", Escape(term));
    LowerDistributes("%" + Escape(term), "%");
    assert Lower(pattern) == "%" + escaped;
    assert Lower(pattern)[1..] == escaped;
    forall k | 0 <= k <= |Lower(text)|
      ensures Like(escaped, Lower(text)[k..]) <==> Lower(term) <= Lower(text)[k..]
    {
      EscapedIsLiteral(Lower(term), Lower(text)[k..]);
    }
  }

  // ---------------------------------------------------------------- the filter

  /** The searched columns of a message; any may be NULL. */
  datatype Envelope = Envelope(
    subject: Option<string>, fromName: Option<string>, fromAddr: Option<string>,
    toAddrs: Option<string>, ccAddrs: Option<string>)

  datatype Truth = Yes | No | Unknown

  function Or(a: Truth, b: Truth): Truth {
    if a.Yes? || b.Yes? then Yes else if a.Unknown? || b.Unknown? then Unknown else No
  }

  ghost function IlikeColumn(column: Option<string>, pattern: string): Truth {
    match column
    case None => Unknown
    case Some(text) => if Ilike(pattern, text) then Yes else No
  }

  ghost function SearchClause(e: Envelope, pattern: string): Truth {
    Or(IlikeColumn(e.subject, pattern),
       Or(IlikeColumn(e.fromName, pattern),
          Or(IlikeColumn(e.fromAddr, pattern),
             Or(IlikeColumn(e.toAddrs, pattern), IlikeColumn(e.ccAddrs, pattern)))))
  }

  /** Whether the search filter keeps a row: no filter without a term, else only rows whose clause is true. */
  ghost predicate Keeps(search: Option<string>, e: Envelope) {
    search.Some? && search.value != [] && Strip(search.value) != [] ==>
      SearchClause(e, "%" + Escape(Strip(search.value)) + "%") == Yes
  }

  ghost predicate Mentions(column: Option<string>, term: string) {
    column.Some? && Contains(Lower(column.value), Lower(term))
  }

  /** A search keeps exactly the rows in which some column that is present contains the trimmed term. */
  lemma SearchFindsExactly(search: string, e: Envelope)
    ensures Keeps(Some(search), e) <==>
      var term := Strip(search);
      || term == []
      || Mentions(e.subject, term) || Mentions(e.fromName, term) || Mentions(e.fromAddr, term)
      || Mentions(e.toAddrs, term) || Mentions(e.ccAddrs, term)
  {
    var term := Strip(search);
    hide Ilike;
    hide Contains;
    hide Escape;
    forall column: Option<string>
      ensures IlikeColumn(column, "%" + Escape(term) + "%") == Yes <==> Mentions(column, term)
    {
      if column.Some? {
        EscapedTermMeansContains(term, column.value);
      }
    }
  }
}
