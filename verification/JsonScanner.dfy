/** Cutting one JSON object out of a page: a character scanner that tracks braces
    and string literals, and what it means on the grammar of RFC 8259. */
module JsonScanner {
  import opened Common

  // ------------------------------------------------------------- balance

  /** What follows the closing quote of the string literal this text is the rest
      of; None if the literal is not closed. */
  function Skip(s: string): (rest: Option<string>)
    ensures rest.Some? ==> |rest.value| < |s|
  {
    if s == "" then None
    else if s[0] == '"' then Some(s[1..])
    else if s[0] == '\\' then
      if |s| < 2 then None else Skip(s[2..])
    else Skip(s[1..])
  }

  /** Open braces minus closed ones outside string literals; None when the text
      ends inside a literal. */
  function Level(s: string): Option<int>
    decreases |s|
  {
    if s == "" then Some(0)
    else if s[0] == '"' then
      var rest := Skip(s[1..]);
      if rest.None? then None else Level(rest.value)
    else Shift(Level(s[1..]), Delta(s[0]))
  }

  function Delta(c: char): int {
    if c == '{' then 1 else if c == '}' then -1 else 0
  }

  function Shift(level: Option<int>, delta: int): Option<int> {
    if level.None? then None else Some(level.value + delta)
  }

  predicate Balanced(s: string) {
    s != "" && Level(s) == Some(0)
  }

  predicate BalancedAt(html: string, start: int, end: int) {
    0 <= start <= end <= |html| && Balanced(html[start..end])
  }

  /** No text from start to an end after it and up to `last` is balanced. */
  ghost predicate NoneUpTo(html: string, start: int, last: int) {
    forall e {:trigger BalancedAt(html, start, e)} | start < e <= last :: !BalancedAt(html, start, e)
  }

  /** What the scan must return: the shortest balanced text that starts there and
      ends within the bound, if any. */
  ghost predicate IsResult(html: string, start: int, maxScan: int, slice: Option<string>) {
    && (slice.Some? ==>
          var end := start + |slice.value|;
          && |slice.value| <= maxScan
          && BalancedAt(html, start, end) && html[start..end] == slice.value
          && html[start] == '{'
          && NoneUpTo(html, start, end - 1))
    && (slice.None? && 0 <= start < |html| && html[start] == '{' ==>
          NoneUpTo(html, start, start + maxScan))
  }

  // ------------------------------------------------------------- scanner

  datatype Scan = Scan(depth: int, inString: bool, escaped: bool)

  function Next(s: Scan, ch: char): Scan {
    if s.escaped then s.(escaped := false)
    else if ch == '\\' && s.inString then s.(escaped := true)
    else if ch == '"' then s.(inString := !s.inString)
    else if s.inString then s
    else if ch == '{' then s.(depth := s.depth + 1)
    else if ch == '}' then s.(depth := s.depth - 1)
    else s
  }

  function Over(s: Scan, text: string): Scan
    decreases |text|
  {
    if text == "" then s else Over(Next(s, text[0]), text[1..])
  }

  lemma {:induction false} OverOneMore(s: Scan, text: string, ch: char)
    ensures Over(s, text + [ch]) == Next(Over(s, text), ch)
    decreases |text|
  {
    if text == "" {
      assert [ch][1..] == "";
    } else {
      OverOneMore(Next(s, text[0]), text[1..], ch);
      assert (text + [ch])[1..] == text[1..] + [ch];
    }
  }

  lemma {:induction false} OverLiteral(depth: int, text: string)
    ensures Skip(text).Some? ==>
              Over(Scan(depth, true, false), text) == Over(Scan(depth, false, false), Skip(text).value)
    ensures Skip(text).None? ==> Over(Scan(depth, true, false), text).inString
  {
    if text != "" && text[0] != '"' {
      if text[0] == '\\' {
        if |text| >= 2 {
          OverLiteral(depth, text[2..]);
          assert text[1..][1..] == text[2..];
        }
      } else {
        OverLiteral(depth, text[1..]);
      }
    }
  }

  /** The scanner computes the level, and knows when it is inside a literal. */
  lemma {:induction false} ScannerIsLevel(depth: int, text: string)
    ensures Level(text).Some? ==> Over(Scan(depth, false, false), text) == Scan(depth + Level(text).value, false, false)
    ensures Level(text).None? ==> Over(Scan(depth, false, false), text).inString
    decreases |text|
  {
    if text != "" {
      if text[0] == '"' {
        OverLiteral(depth, text[1..]);
        if Skip(text[1..]).Some? {
          ScannerIsLevel(depth, Skip(text[1..]).value);
        }
      } else {
        ScannerIsLevel(Next(Scan(depth, false, false), text[0]).depth, text[1..]);
      }
    }
  }

  /** The scanner's state after the characters from `start` up to `i`. */
  function Scanned(html: string, start: nat, i: nat): Scan
    requires start <= i <= |html|
  {
    Over(Scan(0, false, false), html[start..i])
  }

  /** The scan is outside any literal on the level it started on. */
  predicate Stops(html: string, start: nat, i: nat) {
    start < i <= |html| && !Scanned(html, start, i).inString && Scanned(html, start, i).depth == 0
  }

  lemma ScannedOneMore(html: string, start: nat, i: nat)
    requires start <= i < |html|
    ensures Scanned(html, start, i + 1) == Next(Scanned(html, start, i), html[i])
  {
    assert html[start..i + 1] == html[start..i] + [html[i]];
    OverOneMore(Scan(0, false, false), html[start..i], html[i]);
  }

  lemma StopsWhereBalanced(html: string, start: nat, i: nat)
    requires start < i <= |html|
    ensures Stops(html, start, i) <==> BalancedAt(html, start, i)
  {
    ScannerIsLevel(0, html[start..i]);
  }

  ghost predicate NoStop(html: string, start: nat, last: int) {
    forall e {:trigger Stops(html, start, e)} | start < e <= last :: !Stops(html, start, e)
  }

  lemma NoStopNoneBalanced(html: string, start: nat, i: nat, last: int)
    requires i <= |html| && NoStop(html, start, i) && (last <= i || i == |html|)
    ensures NoneUpTo(html, start, last)
  {
    forall e {:trigger BalancedAt(html, start, e)} | start < e <= last ensures !BalancedAt(html, start, e) {
      if e <= i {
        StopsWhereBalanced(html, start, e);
      }
    }
  }

  lemma CutIsResult(html: string, start: nat, maxScan: int, i: nat)
    requires start < i <= |html| && i - start <= maxScan && html[start] == '{'
    requires NoStop(html, start, i - 1) && Stops(html, start, i)
    ensures IsResult(html, start, maxScan, Some(html[start..i]))
  {
    StopsWhereBalanced(html, start, i);
    NoStopNoneBalanced(html, start, i - 1, i - 1);
  }

  method ExtractJSONObject(html: string, start: int, maxScan: int) returns (slice: Option<string>)
    ensures IsResult(html, start, maxScan, slice)
  {
    if start < 0 || start >= |html| || html[start] != '{' {
      return None;
    }
    var depth, inString, escaped := 0, false, false;
    var end := if |html| < start + maxScan then |html| else start + maxScan;
    var i := start;
    while i < end
      invariant start <= i <= |html| && (i <= end || i == start)
      invariant Scan(depth, inString, escaped) == Scanned(html, start, i)
      invariant depth >= if i > start then 1 else 0
      invariant NoStop(html, start, i)
    {
      var ch := html[i];
      ScannedOneMore(html, start, i);
      i := i + 1;
      if escaped {
        escaped := false;
        continue;
      }
      if ch == '\\' && inString {
        escaped := true;
        continue;
      }
      if ch == '"' {
        inString := !inString;
        continue;
      }
      if inString {
        continue;
      }
      if ch == '{' {
        depth := depth + 1;
      } else if ch == '}' {
        depth := depth - 1;
        if depth == 0 {
          CutIsResult(html, start, maxScan, i);
          return Some(html[start..i]);
        }
      }
    }
    NoStopNoneBalanced(html, start, i, start + maxScan);
    slice := None;
  }

  // -------------------------------------------------------------- grammar

  /** A character of a string literal, section 7. */
  datatype Piece = Plain(c: char) | Escape(c: char) | Unicode(hex: string)

  /** A JSON text with its whitespace. `Atom` stands for true, false, null and the
      numbers; it admits any run of the characters they are made of. */
  datatype Value =
    | Atom(text: string)
    | Text(pieces: seq<Piece>)
    | Array(items: seq<Item>, blank: string)
    | Object(members: seq<Member>, blank: string)

  datatype Item = Item(before: string, value: Value, after: string)

  datatype Member = Member(
    before: string, name: seq<Piece>, beforeColon: string, afterColon: string, value: Value, after: string)

  predicate Whitespace(s: string) {
    forall c | c in s :: c == ' ' || c == '\t' || c == '\n' || c == '\r'
  }

  predicate AtomChar(c: char) {
    'a' <= c <= 'z' || '0' <= c <= '9' || c == 'E' || c == '+' || c == '-' || c == '.'
  }

  predicate GoodPiece(p: Piece) {
    match p
    case Plain(c) => c >= ' ' && c != '"' && c != '\\'
    case Escape(c) => c in "\"\\/bfnrt"
    case Unicode(hex) => |hex| == 4 && forall c | c in hex :: '0' <= c <= '9' || 'a' <= c <= 'f' || 'A' <= c <= 'F'
  }

  predicate GoodName(name: seq<Piece>) {
    forall p | p in name :: GoodPiece(p)
  }

  predicate Good(v: Value) {
    match v
    case Atom(text) => forall c | c in text :: AtomChar(c)
    case Text(pieces) => GoodName(pieces)
    case Array(items, blank) =>
      Whitespace(blank)
      && forall item | item in items :: Whitespace(item.before) && Good(item.value) && Whitespace(item.after)
    case Object(members, blank) =>
      Whitespace(blank)
      && forall m | m in members ::
           Whitespace(m.before) && GoodName(m.name) && Whitespace(m.beforeColon) && Whitespace(m.afterColon)
           && Good(m.value) && Whitespace(m.after)
  }

  function PieceText(p: Piece): string {
    match p
    case Plain(c) => [c]
    case Escape(c) => ['\\', c]
    case Unicode(hex) => "\\u" + hex
  }

  function PiecesText(pieces: seq<Piece>): string {
    if pieces == [] then "" else PieceText(pieces[0]) + PiecesText(pieces[1..])
  }

  function Quoted(pieces: seq<Piece>): string {
    "\"" + PiecesText(pieces) + "\""
  }

  function Render(v: Value): string
    decreases v, 0
  {
    match v
    case Atom(text) => text
    case Text(pieces) => Quoted(pieces)
    case Array(items, blank) => "[" + (if items == [] then blank else RenderItems(v, items)) + "]"
    case Object(members, blank) => "{" + Body(v) + "}"
  }

  function Body(v: Value): string
    requires v.Object?
    decreases v, 0, 1
  {
    if v.members == [] then v.blank else RenderMembers(v, v.members)
  }

  function RenderItems(ghost v: Value, items: seq<Item>): string
    requires forall item | item in items :: item.value < v
    decreases v, 0, 0, |items|
  {
    if items == [] then ""
    else
      items[0].before + Render(items[0].value) + items[0].after
      + (if |items| == 1 then "" else "," + RenderItems(v, items[1..]))
  }

  function RenderMembers(ghost v: Value, members: seq<Member>): string
    requires forall m | m in members :: m.value < v
    decreases v, 0, 0, |members|
  {
    if members == [] then ""
    else
      var m := members[0];
      m.before + Quoted(m.name) + m.beforeColon + ":" + m.afterColon + Render(m.value) + m.after
      + (if |members| == 1 then "" else "," + RenderMembers(v, members[1..]))
  }

  // --------------------------------------------- every JSON text is nested

  predicate NotBelow(level: Option<int>, bound: int) {
    level.Some? ==> level.value >= bound
  }

  /** Ends on the level it starts on and never goes below it. */
  ghost predicate Nested(s: string) {
    Level(s) == Some(0) && forall n | 0 <= n <= |s| :: NotBelow(Level(s[..n]), 0)
  }

  lemma {:induction false} SkipConcat(a: string, b: string)
    requires Skip(a).Some?
    ensures Skip(a + b) == Some(Skip(a).value + b)
    decreases |a|
  {
    if a[0] == '"' {
      assert (a + b)[1..] == a[1..] + b;
    } else {
      var k := if a[0] == '\\' then 2 else 1;
      assert (a + b)[k..] == a[k..] + b;
      SkipConcat(a[k..], b);
    }
  }

  lemma LiteralConcat(text: string, b: string)
    requires Skip(text).Some?
    ensures Level(['"'] + text) == Level(Skip(text).value)
    ensures Level(['"'] + text + b) == Level(Skip(text).value + b)
  {
    SkipConcat(text, b);
    assert ['"'] + text + b == ['"'] + (text + b);
  }

  lemma CharConcat(c: char, rest: string, b: string)
    requires c != '"'
    ensures Level([c] + rest) == Shift(Level(rest), Delta(c))
    ensures Level([c] + rest + b) == Shift(Level(rest + b), Delta(c))
  {
    assert [c] + rest + b == [c] + (rest + b);
  }

  lemma {:induction false} LevelConcat(a: string, b: string)
    requires Level(a).Some?
    ensures Level(a + b) == Shift(Level(b), Level(a).value)
    decreases |a|
  {
    if a == "" {
      assert a + b == b;
    } else {
      var c, rest := a[0], a[1..];
      assert a == [c] + rest;
      if c == '"' {
        LiteralConcat(rest, b);
        LevelConcat(Skip(rest).value, b);
      } else {
        CharConcat(c, rest, b);
        LevelConcat(rest, b);
      }
    }
  }

  lemma NestedConcat(a: string, b: string)
    requires Nested(a) && Nested(b)
    ensures Nested(a + b)
  {
    LevelConcat(a, b);
    forall n | 0 <= n <= |a + b| ensures NotBelow(Level((a + b)[..n]), 0) {
      if n <= |a| {
        assert (a + b)[..n] == a[..n];
      } else {
        assert (a + b)[..n] == a + b[..n - |a|];
        LevelConcat(a, b[..n - |a|]);
        assert NotBelow(Level(b[..n - |a|]), 0);
      }
    }
  }

  predicate Neutral(s: string) {
    forall c | c in s :: c != '"' && c != '{' && c != '}'
  }

  lemma {:induction false} NeutralLevel(s: string)
    requires Neutral(s)
    ensures Level(s) == Some(0)
    decreases |s|
  {
    if s != "" {
      assert s[0] in s && forall c | c in s[1..] :: c in s;
      NeutralLevel(s[1..]);
    }
  }

  lemma NeutralNested(s: string)
    requires Neutral(s)
    ensures Nested(s)
  {
    NeutralLevel(s);
    forall n | 0 <= n <= |s| ensures NotBelow(Level(s[..n]), 0) {
      assert forall c | c in s[..n] :: c in s;
      NeutralLevel(s[..n]);
    }
  }

  /** Wrapping a nested text in braces makes it balanced, and no shorter prefix is. */
  lemma BracedFirst(s: string)
    requires Nested(s)
    ensures Level("{" + s + "}") == Some(0)
    ensures forall n | 0 < n < |s| + 2 :: NotBelow(Level(("{" + s + "}")[..n]), 1)
  {
    var text := "{" + s + "}";
    assert text == "{" + (s + "}");
    LevelConcat(s, "}");
    assert ['}'] + "" == "}";
    forall n | 0 < n < |s| + 2 ensures NotBelow(Level(text[..n]), 1) {
      assert text[..n] == "{" + s[..n - 1];
      assert NotBelow(Level(s[..n - 1]), 0);
    }
  }

  lemma BracedNested(s: string)
    requires Nested(s)
    ensures Nested("{" + s + "}")
  {
    BracedFirst(s);
    var text := "{" + s + "}";
    forall n | 0 <= n <= |text| ensures NotBelow(Level(text[..n]), 0) {
      if n == |text| {
        assert text[..n] == text;
      } else if n > 0 {
        assert NotBelow(Level(text[..n]), 1);
      }
    }
  }

  lemma PieceSkips(p: Piece, rest: string)
    requires GoodPiece(p)
    ensures Skip(PieceText(p) + rest) == Skip(rest)
  {
    var text := PieceText(p) + rest;
    match p
    case Plain(c) => assert text[1..] == rest;
    case Escape(c) => assert text[2..] == rest;
    case Unicode(hex) =>
      assert text[2..] == hex + rest;
      HexSkips(hex, rest);
  }

  lemma {:induction false} HexSkips(hex: string, rest: string)
    requires forall c | c in hex :: c != '"' && c != '\\'
    ensures Skip(hex + rest) == Skip(rest)
  {
    if hex == "" {
      assert hex + rest == rest;
    } else {
      assert hex[0] in hex && forall c | c in hex[1..] :: c in hex;
      assert (hex + rest)[1..] == hex[1..] + rest;
      HexSkips(hex[1..], rest);
    }
  }

  lemma {:induction false} PiecesClose(pieces: seq<Piece>)
    requires GoodName(pieces)
    ensures Skip(PiecesText(pieces) + "\"") == Some("")
  {
    if pieces == [] {
      assert PiecesText(pieces) + "\"" == "\"";
      assert "\""[1..] == "";
    } else {
      assert pieces[0] in pieces && forall p | p in pieces[1..] :: p in pieces;
      PiecesClose(pieces[1..]);
      PieceSkips(pieces[0], PiecesText(pieces[1..]) + "\"");
      assert PiecesText(pieces) + "\"" == PieceText(pieces[0]) + (PiecesText(pieces[1..]) + "\"");
    }
  }

  /** A literal that closes at the very end does not close earlier. */
  lemma {:induction false} ClosesOnce(s: string, n: nat)
    requires Skip(s) == Some("") && n < |s|
    ensures Skip(s[..n]).None?
    decreases |s|
  {
    if n > 0 && s[0] != '"' {
      var k := if s[0] == '\\' then 2 else 1;
      if n >= k {
        ClosesOnce(s[k..], n - k);
        assert s[..n][k..] == s[k..][..n - k];
      }
    }
  }

  lemma QuotedNested(pieces: seq<Piece>)
    requires GoodName(pieces)
    ensures Nested(Quoted(pieces))
  {
    var text, rest := Quoted(pieces), PiecesText(pieces) + "\"";
    PiecesClose(pieces);
    assert text[1..] == rest;
    forall n | 0 <= n <= |text| ensures NotBelow(Level(text[..n]), 0) {
      if n == |text| {
        assert text[..n] == text;
      } else if n > 0 {
        ClosesOnce(rest, n - 1);
        assert text[..n][1..] == rest[..n - 1];
      }
    }
  }

  lemma {:induction false} RenderNested(v: Value)
    requires Good(v)
    ensures Nested(Render(v))
    ensures v.Object? ==> Nested(Body(v))
    decreases v, 0
  {
    match v
    case Atom(text) => NeutralNested(text);
    case Text(pieces) => QuotedNested(pieces);
    case Array(items, blank) =>
      var inner := if items == [] then blank else RenderItems(v, items);
      if items == [] { NeutralNested(blank); } else { ItemsNested(v, items); }
      NeutralNested("[");
      NeutralNested("]");
      NestedConcat("[", inner);
      NestedConcat("[" + inner, "]");
    case Object(members, blank) =>
      if members == [] { NeutralNested(blank); } else { MembersNested(v, members); }
      BracedNested(Body(v));
  }

  lemma {:induction false} ItemsNested(v: Value, items: seq<Item>)
    requires v.Array? && Good(v) && items != [] && forall item | item in items :: item in v.items
    ensures forall item | item in items :: item.value < v
    ensures Nested(RenderItems(v, items))
    decreases v, 0, |items|
  {
    var item := items[0];
    assert item in items;
    RenderNested(item.value);
    NeutralNested(item.before);
    NeutralNested(item.after);
    var a, b := item.before + Render(item.value), item.before + Render(item.value) + item.after;
    NestedConcat(item.before, Render(item.value));
    NestedConcat(a, item.after);
    if |items| == 1 {
      assert RenderItems(v, items) == b + "";
      assert b + "" == b;
    } else {
      assert forall x | x in items[1..] :: x in items;
      ItemsNested(v, items[1..]);
      NeutralNested(",");
      NestedConcat(",", RenderItems(v, items[1..]));
      NestedConcat(b, "," + RenderItems(v, items[1..]));
    }
  }

  lemma {:induction false} MembersNested(v: Value, members: seq<Member>)
    requires v.Object? && Good(v) && members != [] && forall m | m in members :: m in v.members
    ensures forall m | m in members :: m.value < v
    ensures Nested(RenderMembers(v, members))
    decreases v, 0, |members|
  {
    var m := members[0];
    assert m in members;
    RenderNested(m.value);
    MemberNested(m);
    var text := MemberText(m);
    if |members| == 1 {
      assert RenderMembers(v, members) == text + "";
      assert text + "" == text;
    } else {
      assert forall x | x in members[1..] :: x in members;
      MembersNested(v, members[1..]);
      NeutralNested(",");
      NestedConcat(",", RenderMembers(v, members[1..]));
      NestedConcat(text, "," + RenderMembers(v, members[1..]));
    }
  }

  function MemberText(m: Member): string {
    m.before + Quoted(m.name) + m.beforeColon + ":" + m.afterColon + Render(m.value) + m.after
  }

  lemma MemberNested(m: Member)
    requires Whitespace(m.before) && GoodName(m.name) && Whitespace(m.beforeColon) && Whitespace(m.afterColon)
    requires Whitespace(m.after) && Nested(Render(m.value))
    ensures Nested(MemberText(m))
  {
    NeutralNested(m.before);
    QuotedNested(m.name);
    NeutralNested(m.beforeColon);
    NeutralNested(":");
    NeutralNested(m.afterColon);
    NeutralNested(m.after);
    NestedConcat(m.before, Quoted(m.name));
    NestedConcat(m.before + Quoted(m.name), m.beforeColon);
    NestedConcat(m.before + Quoted(m.name) + m.beforeColon, ":");
    NestedConcat(m.before + Quoted(m.name) + m.beforeColon + ":", m.afterColon);
    NestedConcat(m.before + Quoted(m.name) + m.beforeColon + ":" + m.afterColon, Render(m.value));
    NestedConcat(m.before + Quoted(m.name) + m.beforeColon + ":" + m.afterColon + Render(m.value), m.after);
  }

  // -------------------------------------------------------------- theorem

  /** Wherever an object text of the grammar stands in a page, whatever follows it,
      the scan returns exactly that text as long as the bound reaches its end. */
  lemma ObjectIsCutExactly(html: string, start: int, maxScan: int, v: Value, slice: Option<string>)
    requires v.Object? && Good(v)
    requires 0 <= start <= |html| - |Render(v)| && html[start..start + |Render(v)|] == Render(v)
    requires |Render(v)| <= maxScan
    requires IsResult(html, start, maxScan, slice)
    ensures slice == Some(Render(v))
  {
    var text := Render(v);
    var end := start + |text|;
    RenderNested(v);
    BracedFirst(Body(v));
    assert html[start] == html[start..end][0] == '{';
    assert BalancedAt(html, start, end);
    forall e | start < e < end ensures !BalancedAt(html, start, e) {
      assert html[start..e] == text[..e - start];
      assert NotBelow(Level(text[..e - start]), 1);
    }
    var got := start + |slice.value|;
    assert got == end;
  }

  /** The result is determined by the page, the start and the bound. */
  lemma ResultIsUnique(html: string, start: int, maxScan: int, a: Option<string>, b: Option<string>)
    requires 0 <= start < |html| && html[start] == '{'
    requires IsResult(html, start, maxScan, a) && IsResult(html, start, maxScan, b)
    ensures a == b
  {
    if a.Some? && b.Some? {
      assert BalancedAt(html, start, start + |a.value|) && BalancedAt(html, start, start + |b.value|);
    }
  }
}
