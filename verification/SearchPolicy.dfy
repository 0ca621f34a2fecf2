/** The search query filter: what it lets through, and that the extraction worker
    accepts exactly that text. Text is a sequence of Unicode code points. */
module SearchPolicy {
  import opened Common

  newtype Rune = r: int | 0 <= r < 0x110000

  type Text = seq<Rune>

  const SPACE: Rune := 0x20
  const MAX_RUNES := 240
  const MAX_TERMS := 40
  const MAX_UNITS := 500

  /** The regular expressions, as predicates on the normalized query. */
  datatype Patterns = Patterns(
    url: Text -> bool, credential: Text -> bool, instruction: Text -> bool, internal: Text -> bool)

  datatype Code =
    | ControlCharacters | EmptyQuery | QueryTooLong | TooManyTerms
    | UrlInQuery | CredentialInQuery | InstructionInjection | InternalTarget

  datatype Decision = Accepted(query: Text, normalized: bool) | Rejected(code: Code)

  /** White space as strings.Fields sees it (Unicode White_Space). */
  predicate IsSpace(r: Rune) {
    || 0x09 <= r <= 0x0D || r == 0x20 || r == 0x85 || r == 0xA0 || r == 0x1680
    || 0x2000 <= r <= 0x200A || r == 0x2028 || r == 0x2029 || r == 0x202F || r == 0x205F || r == 0x3000
  }

  /** Unicode category Cf, version 15. */
  predicate IsFormat(r: Rune) {
    || r == 0xAD || 0x600 <= r <= 0x605 || r == 0x61C || r == 0x6DD || r == 0x70F || 0x890 <= r <= 0x891
    || r == 0x8E2 || r == 0x180E || 0x200B <= r <= 0x200F || 0x202A <= r <= 0x202E || 0x2060 <= r <= 0x2064
    || 0x2066 <= r <= 0x206F || r == 0xFEFF || 0xFFF9 <= r <= 0xFFFB || r == 0x110BD || r == 0x110CD
    || 0x13430 <= r <= 0x1343F || 0x1BCA0 <= r <= 0x1BCA3 || 0x1D173 <= r <= 0x1D17A || r == 0xE0001
    || 0xE0020 <= r <= 0xE007F
  }

  predicate Forbidden(r: Rune) {
    (r < 0x20 && r != 0x09 && r != 0x0A && r != 0x0D) || 0x7F <= r <= 0x9F || IsFormat(r)
  }

  predicate HasForbidden(s: Text) {
    exists r | r in s :: Forbidden(r)
  }

  function Fold(r: Rune): Rune {
    if r == 0x3000 then SPACE
    else if 0xFF01 <= r <= 0xFF5E then r - 0xFEE0
    else r
  }

  function FoldAll(s: Text): (t: Text)
    ensures |t| == |s| && forall i | 0 <= i < |s| :: t[i] == Fold(s[i])
  {
    seq(|s|, i requires 0 <= i < |s| => Fold(s[i]))
  }

  /** The length of the first run of non-space runes. */
  function WordLength(s: Text): (n: nat)
    ensures n <= |s|
    ensures forall i | 0 <= i < n :: !IsSpace(s[i])
    ensures n < |s| ==> IsSpace(s[n])
  {
    if s == [] || IsSpace(s[0]) then 0 else 1 + WordLength(s[1..])
  }

  /** strings.Fields */
  function Fields(s: Text): (words: seq<Text>)
    ensures forall w | w in words :: IsWord(w)
    decreases |s|
  {
    if s == [] then []
    else if IsSpace(s[0]) then Fields(s[1..])
    else
      var n := WordLength(s);
      [s[..n]] + Fields(s[n..])
  }

  predicate IsWord(w: Text) {
    w != [] && forall r | r in w :: !IsSpace(r)
  }

  function Join(words: seq<Text>): Text {
    if words == [] then []
    else if |words| == 1 then words[0]
    else words[0] + [SPACE] + Join(words[1..])
  }

  function Normalize(s: Text): Text {
    Join(Fields(FoldAll(s)))
  }

  /** `input` is None when the bytes are not valid UTF-8. */
  function Filter(input: Option<Text>, patterns: Patterns): Decision {
    if input.None? then Rejected(ControlCharacters)
    else if HasForbidden(input.value) then Rejected(ControlCharacters)
    else
      var query := Normalize(input.value);
      if query == [] then Rejected(EmptyQuery)
      else if |query| > MAX_RUNES then Rejected(QueryTooLong)
      else if |Fields(query)| > MAX_TERMS then Rejected(TooManyTerms)
      else if patterns.url(query) then Rejected(UrlInQuery)
      else if patterns.credential(query) then Rejected(CredentialInQuery)
      else if patterns.instruction(query) then Rejected(InstructionInjection)
      else if patterns.internal(query) then Rejected(InternalTarget)
      else Accepted(query, query != input.value)
  }

  // ---------------------------------------------------------- normal form

  /** No foldable rune, no space but U+0020, and that neither first, last nor doubled. */
  predicate NormalForm(s: Text) {
    && (forall r | r in s :: Fold(r) == r && (IsSpace(r) ==> r == SPACE))
    && (s != [] ==> !IsSpace(s[0]) && !IsSpace(s[|s| - 1]))
    && (forall i | 0 < i < |s| :: IsSpace(s[i - 1]) ==> !IsSpace(s[i]))
  }

  lemma WordThenRest(w: Text, rest: Text)
    requires IsWord(w) && (rest == [] || IsSpace(rest[0]))
    ensures WordLength(w + rest) == |w|
  {
    forall i | 0 <= i < |w| ensures !IsSpace((w + rest)[i]) {
      assert (w + rest)[i] == w[i] && w[i] in w;
    }
    assert rest != [] ==> (w + rest)[|w|] == rest[0];
  }

  /** Splitting what was joined gives the words back. */
  lemma {:induction false} FieldsOfJoin(words: seq<Text>)
    requires forall w | w in words :: IsWord(w)
    ensures Fields(Join(words)) == words
  {
    if words != [] {
      var w, joined := words[0], Join(words);
      assert w in words && w[0] in w;
      var rest := if |words| == 1 then [] else [SPACE] + Join(words[1..]);
      assert joined == w + rest;
      WordThenRest(w, rest);
      assert joined[..|w|] == w && joined[|w|..] == rest;
      if |words| > 1 {
        assert rest[1..] == Join(words[1..]);
        assert forall x | x in words[1..] :: x in words;
        FieldsOfJoin(words[1..]);
        assert Fields(rest) == Fields(rest[1..]);
      }
    }
  }

  lemma FieldOfWord(w: Text)
    requires IsWord(w)
    ensures Fields(w) == [w]
  {
    WordThenRest(w, []);
    assert w + [] == w && w[0] in w && w[..|w|] == w && w[|w|..] == [];
  }

  lemma WordFirst(w: Text, rest: Text)
    requires IsWord(w) && (rest == [] || IsSpace(rest[0]))
    ensures Fields(w + rest) == [w] + Fields(rest)
  {
    var s := w + rest;
    assert w[0] in w && s[0] == w[0];
    WordThenRest(w, rest);
    assert s[..|w|] == w && s[|w|..] == rest;
  }

  /** White space parts a text into texts whose words are its words, none lost. */
  lemma {:induction false} FieldsSplit(a: Text, r: Rune, b: Text)
    requires IsSpace(r)
    ensures Fields(a + [r] + b) == Fields(a) + Fields(b)
    decreases |a|
  {
    var s := a + [r] + b;
    if a == [] {
      assert s == [r] + b && s[1..] == b;
    } else if IsSpace(a[0]) {
      assert s[1..] == a[1..] + [r] + b;
      FieldsSplit(a[1..], r, b);
    } else {
      var n := WordLength(a);
      var w, rest := a[..n], a[n..];
      assert IsWord(w);
      assert a == w + rest && s == w + (rest + [r] + b);
      WordFirst(w, rest);
      WordFirst(w, rest + [r] + b);
      FieldsSplit(rest, r, b);
    }
  }

  /** Normalization told rune by rune: white space is dropped, and any other rune is
      kept and parted from the one before it by one space exactly if white space
      stands right before it. */
  function Collapsed(s: Text): Text {
    if s == [] then []
    else
      var n := |s| - 1;
      var front := Collapsed(s[..n]);
      if IsSpace(s[n]) then front
      else if front != [] && n > 0 && IsSpace(s[n - 1]) then front + [SPACE, s[n]]
      else front + [s[n]]
  }

  lemma {:induction false} JoinLast(words: seq<Text>, w: Text)
    ensures Join(words + [w]) == if words == [] then w else Join(words) + [SPACE] + w
  {
    if words != [] {
      assert (words + [w])[1..] == words[1..] + [w];
      JoinLast(words[1..], w);
    }
  }

  /** The last word of a text that does not end in white space. */
  lemma {:induction false} LastWordOf(s: Text) returns (q: Text, w: Text)
    requires s != [] && !IsSpace(s[|s| - 1])
    ensures s == q + w && IsWord(w) && (q != [] ==> IsSpace(q[|q| - 1]))
  {
    var n := |s| - 1;
    if n == 0 || IsSpace(s[n - 1]) {
      q, w := s[..n], [s[n]];
    } else {
      q, w := LastWordOf(s[..n]);
      w := w + [s[n]];
    }
  }

  lemma FieldsBefore(q: Text, w: Text)
    requires IsWord(w) && (q != [] ==> IsSpace(q[|q| - 1]))
    ensures Fields(q + w) == Fields(q) + [w]
  {
    FieldOfWord(w);
    if q == [] {
      assert q + w == w;
    } else {
      var n := |q| - 1;
      FieldsSplit(q[..n], q[n], w);
      FieldsSplit(q[..n], q[n], []);
      assert q[..n] + [q[n]] == q && q + [] == q;
    }
  }

  lemma JoinOfWords(words: seq<Text>)
    requires forall w | w in words :: IsWord(w)
    ensures Join(words) == [] <==> words == []
  {
    if words != [] {
      assert words[0] in words;
    }
  }

  lemma AfterSpace(front: Text, last: Rune)
    requires !IsSpace(last) && (front != [] ==> IsSpace(front[|front| - 1]))
    ensures var joined := Join(Fields(front));
            Join(Fields(front + [last])) == if joined == [] then [last] else joined + [SPACE, last]
  {
    FieldsBefore(front, [last]);
    JoinOfWords(Fields(front));
    JoinNew(Fields(front), last);
  }

  lemma JoinNew(words: seq<Text>, last: Rune)
    ensures Join(words + [[last]]) == if words == [] then [last] else Join(words) + [SPACE, last]
  {
    JoinLast(words, [last]);
    assert Join(words) + [SPACE] + [last] == Join(words) + [SPACE, last];
  }

  lemma JoinLonger(words: seq<Text>, w: Text, last: Rune)
    ensures Join(words + [w + [last]]) == Join(words + [w]) + [last]
  {
    JoinLast(words, w);
    JoinLast(words, w + [last]);
    assert Join(words) + [SPACE] + (w + [last]) == Join(words) + [SPACE] + w + [last];
  }

  lemma AfterLetter(front: Text, last: Rune)
    requires !IsSpace(last) && front != [] && !IsSpace(front[|front| - 1])
    ensures Join(Fields(front + [last])) == Join(Fields(front)) + [last]
  {
    var q, w := LastWordOf(front);
    AfterWord(q, w, last);
  }

  lemma LongerWord(w: Text, last: Rune)
    requires IsWord(w) && !IsSpace(last)
    ensures IsWord(w + [last])
  {
  }

  lemma AfterWord(q: Text, w: Text, last: Rune)
    requires IsWord(w) && !IsSpace(last) && (q != [] ==> IsSpace(q[|q| - 1]))
    ensures Join(Fields(q + w + [last])) == Join(Fields(q + w)) + [last]
  {
    LongerWord(w, last);
    FieldsBefore(q, w);
    FieldsBefore(q, w + [last]);
    JoinLonger(Fields(q), w, last);
    assert q + w + [last] == q + (w + [last]);
  }

  lemma {:induction false} JoinedIsCollapsed(s: Text)
    ensures Join(Fields(s)) == Collapsed(s)
  {
    if s != [] {
      var n := |s| - 1;
      var front, last := s[..n], s[n];
      JoinedIsCollapsed(front);
      assert s == front + [last];
      if IsSpace(last) {
        FieldsSplit(front, last, []);
        assert s + [] == s && Fields(front) + [] == Fields(front);
      } else if n == 0 || IsSpace(front[n - 1]) {
        AfterSpace(front, last);
      } else {
        AfterLetter(front, last);
      }
    }
  }

  function Letters(s: Text): Text {
    if s == [] then []
    else
      var front, last := Letters(s[..|s| - 1]), s[|s| - 1];
      if IsSpace(last) then front else front + [last]
  }

  lemma LettersMore(s: Text, r: Rune)
    ensures Letters(s + [r]) == if IsSpace(r) then Letters(s) else Letters(s) + [r]
  {
    assert (s + [r])[..|s|] == s;
  }

  lemma SpacedLetters(s: Text, r: Rune)
    requires !IsSpace(r)
    ensures Letters(s + [SPACE, r]) == Letters(s) + [r]
  {
    LettersMore(s, SPACE);
    LettersMore(s + [SPACE], r);
    assert s + [SPACE] + [r] == s + [SPACE, r];
  }

  lemma {:induction false} CollapsedLetters(s: Text)
    ensures Letters(Collapsed(s)) == Letters(s)
  {
    if s != [] {
      var n := |s| - 1;
      CollapsedLetters(s[..n]);
      OneMoreLetter(Collapsed(s[..n]), s[n]);
    }
  }

  lemma OneMoreLetter(front: Text, r: Rune)
    ensures !IsSpace(r) ==> Letters(front + [r]) == Letters(front) + [r]
    ensures !IsSpace(r) ==> Letters(front + [SPACE, r]) == Letters(front) + [r]
  {
    LettersMore(front, r);
    if !IsSpace(r) {
      SpacedLetters(front, r);
    }
  }

  /** Normalizing folds every rune, drops white space and keeps every other rune in
      its order, with one space exactly where the input has white space between two. */
  lemma NormalizeMeans(s: Text)
    ensures Normalize(s) == Collapsed(FoldAll(s)) && Letters(Normalize(s)) == Letters(FoldAll(s))
  {
    JoinedIsCollapsed(FoldAll(s));
    CollapsedLetters(FoldAll(s));
  }

  /** Folding takes the full-width forms to printable ASCII, one to one and in order,
      and the ideographic space to a space; it leaves everything else. */
  lemma FoldIsAscii(r: Rune)
    ensures 0x21 <= r <= 0x7E ==> Fold(r) == r && exists wide: Rune :: wide > 0xFF00 && Fold(wide) == r
    ensures Fold(r) != r ==> r == 0x3000 || 0xFF01 <= r <= 0xFF5E
    ensures 0xFF01 <= r <= 0xFF5E ==> 0x21 <= Fold(r) <= 0x7E && Fold(r) - 0x21 == r - 0xFF01
    ensures IsSpace(Fold(r)) <==> IsSpace(r)
  {
    if 0x21 <= r <= 0x7E {
      assert Fold(r + 0xFEE0) == r;
    }
  }

  lemma {:induction false} FieldsKeepRunes(s: Text)
    ensures forall w, r | w in Fields(s) && r in w :: r in s
    decreases |s|
  {
    if s != [] {
      if IsSpace(s[0]) {
        FieldsKeepRunes(s[1..]);
      } else {
        FieldsKeepRunes(s[WordLength(s)..]);
      }
    }
  }

  lemma {:induction false} JoinIsNormal(words: seq<Text>)
    requires forall w | w in words :: IsWord(w) && forall r | r in w :: Fold(r) == r
    ensures NormalForm(Join(words)) && (Join(words) == [] <==> words == [])
  {
    if words != [] {
      var w, joined := words[0], Join(words);
      assert w in words && w[0] in w && w[|w| - 1] in w;
      if |words| > 1 {
        assert forall x | x in words[1..] :: x in words;
        JoinIsNormal(words[1..]);
        var tail := Join(words[1..]);
        assert joined == w + [SPACE] + tail;
        forall i | 0 < i < |joined| ensures IsSpace(joined[i - 1]) ==> !IsSpace(joined[i]) {
          if i <= |w| {
            assert joined[i - 1] == w[i - 1] && w[i - 1] in w;
          } else if i == |w| + 1 {
            assert joined[i] == tail[0];
          } else {
            assert joined[i - 1] == tail[i - |w| - 2] && joined[i] == tail[i - |w| - 1];
          }
        }
      } else {
        forall i | 0 < i < |joined| ensures !IsSpace(joined[i]) { assert w[i] in w; }
      }
    }
  }

  lemma NormalizeIsNormal(s: Text)
    ensures NormalForm(Normalize(s))
  {
    var folded := FoldAll(s);
    FieldsKeepRunes(folded);
    forall w | w in Fields(folded) ensures forall r | r in w :: Fold(r) == r {
      forall r | r in w ensures Fold(r) == r {
        var i :| 0 <= i < |folded| && folded[i] == r;
        assert folded[i] == Fold(s[i]);
      }
    }
    JoinIsNormal(Fields(folded));
  }

  lemma FirstField(w: Text, rest: Text)
    requires IsWord(w) && rest != [] && !IsSpace(rest[0])
    ensures Fields(w + [SPACE] + rest) == [w] + Fields(rest) && Fields(rest) != []
  {
    var s, tail := w + [SPACE] + rest, [SPACE] + rest;
    assert w[0] in w && s == w + tail;
    WordThenRest(w, tail);
    assert s[..|w|] == w && s[|w|..] == tail;
    assert tail[1..] == rest;
  }

  lemma NormalTail(s: Text, n: nat)
    requires NormalForm(s) && n < |s| && !IsSpace(s[n])
    ensures NormalForm(s[n..])
  {
    var t := s[n..];
    forall r | r in t ensures r in s {}
    assert t[|t| - 1] == s[|s| - 1];
    forall i | 0 < i < |t| ensures IsSpace(t[i - 1]) ==> !IsSpace(t[i]) {
      assert t[i - 1] == s[n + i - 1] && t[i] == s[n + i];
    }
  }

  /** In normal form a word that is not the last is followed by one space and another word. */
  lemma NextWord(s: Text) returns (w: Text, rest: Text)
    requires NormalForm(s) && WordLength(s) < |s|
    ensures s == w + [SPACE] + rest && NormalForm(rest)
    ensures Fields(s) == [w] + Fields(rest) && Fields(rest) != []
  {
    var n := WordLength(s);
    w, rest := s[..n], s[n + 1..];
    assert s[0] in s && s[n] in s && n > 0;
    assert n + 1 < |s| && !IsSpace(s[n + 1]);
    NormalTail(s, n + 1);
    assert s == w + [SPACE] + rest;
    FirstField(w, rest);
  }

  lemma LastWord(s: Text)
    requires s != [] && WordLength(s) == |s|
    ensures Fields(s) == [s]
  {
    assert s[..|s|] == s && s[|s|..] == [];
  }

  lemma JoinTwo(w: Text, words: seq<Text>)
    requires words != []
    ensures Join([w] + words) == w + [SPACE] + Join(words)
  {
    assert ([w] + words)[1..] == words;
  }

  lemma {:induction false} JoinOfFields(s: Text)
    requires NormalForm(s)
    ensures Join(Fields(s)) == s
    decreases |s|
  {
    if s != [] {
      if WordLength(s) == |s| {
        LastWord(s);
      } else {
        var w, rest := NextWord(s);
        JoinOfFields(rest);
        JoinTwo(w, Fields(rest));
      }
    }
  }

  /** Normalizing changes a text exactly when it is not in normal form. */
  lemma FixedPoints(s: Text)
    ensures Normalize(s) == s <==> NormalForm(s)
  {
    NormalizeIsNormal(s);
    if NormalForm(s) {
      assert FoldAll(s) == s by {
        forall i | 0 <= i < |s| ensures FoldAll(s)[i] == s[i] { assert s[i] in s; }
      }
      JoinOfFields(s);
    }
  }

  lemma FoldAddsNothingForbidden(s: Text)
    requires !HasForbidden(s)
    ensures !HasForbidden(Normalize(s))
  {
    var folded := FoldAll(s);
    forall r | r in folded ensures !Forbidden(r) {
      var i :| 0 <= i < |folded| && folded[i] == r;
      assert s[i] in s;
    }
    FieldsKeepRunes(folded);
    JoinRunes(Fields(folded));
  }

  lemma {:induction false} JoinRunes(words: seq<Text>)
    ensures forall r | r in Join(words) :: r == SPACE || exists w | w in words :: r in w
  {
    if |words| > 1 {
      JoinRunes(words[1..]);
      assert forall w | w in words[1..] :: w in words;
    }
  }

  /** An accepted query is accepted again, unchanged and not marked as normalized. */
  lemma FilterIsProjection(input: Option<Text>, patterns: Patterns)
    ensures var d := Filter(input, patterns);
            d.Accepted? ==> Filter(Some(d.query), patterns) == Accepted(d.query, false)
  {
    if input.Some? && !HasForbidden(input.value) {
      var query := Normalize(input.value);
      NormalizeIsNormal(input.value);
      FixedPoints(query);
      FoldAddsNothingForbidden(input.value);
      assert Normalize(query) == query && !HasForbidden(query);
    }
  }

  lemma ChangedMeans(text: Text)
    ensures (Normalize(text) != text <==> !NormalForm(text)) && NormalForm(Normalize(text))
  {
    FixedPoints(text);
    NormalizeIsNormal(text);
  }

  /** The normalized mark is honest: it is absent exactly for inputs already in normal form. */
  lemma MarkIsHonest(input: Option<Text>, patterns: Patterns)
    ensures var d := Filter(input, patterns);
            d.Accepted? ==> (d.normalized <==> !NormalForm(input.value)) && NormalForm(d.query)
  {
    if input.Some? {
      ChangedMeans(input.value);
    }
  }

  predicate NoPattern(query: Text, patterns: Patterns) {
    !patterns.url(query) && !patterns.credential(query) && !patterns.instruction(query) && !patterns.internal(query)
  }

  /** What is let through: clean text of one to forty words, at most 240 runes
      once normalized, that matches no pattern then. Words may be counted before
      normalization as well as after. */
  lemma AcceptedExactly(input: Option<Text>, patterns: Patterns)
    ensures Filter(input, patterns).Accepted? <==>
            && input.Some? && !HasForbidden(input.value)
            && 1 <= |Fields(FoldAll(input.value))| <= MAX_TERMS
            && |Normalize(input.value)| <= MAX_RUNES && NoPattern(Normalize(input.value), patterns)
  {
    if input.Some? {
      FieldsOfJoin(Fields(FoldAll(input.value)));
      FoldedWords(input.value);
    }
  }

  lemma {:induction false} NoFields(s: Text)
    ensures Fields(s) == [] <==> forall r | r in s :: IsSpace(r)
    decreases |s|
  {
    if s != [] {
      assert s[0] in s && forall r :: r in s <==> r == s[0] || r in s[1..];
      if IsSpace(s[0]) {
        NoFields(s[1..]);
      }
    }
  }

  lemma FoldKeepsSpace(s: Text)
    ensures (forall r | r in FoldAll(s) :: IsSpace(r)) <==> forall r | r in s :: IsSpace(r)
  {
    var folded := FoldAll(s);
    if r :| r in s && !IsSpace(r) {
      var i :| 0 <= i < |s| && s[i] == r;
      assert folded[i] in folded && !IsSpace(folded[i]);
    } else {
      forall r | r in folded ensures IsSpace(r) {
        var i :| 0 <= i < |folded| && folded[i] == r;
        assert s[i] in s;
      }
    }
  }

  /** An input is rejected as empty exactly when it is clean and all white space,
      wide spaces included. */
  lemma EmptyExactly(input: Text, patterns: Patterns)
    ensures Filter(Some(input), patterns) == Rejected(EmptyQuery)
            <==> !HasForbidden(input) && forall r | r in input :: IsSpace(r)
  {
    FoldKeepsSpace(input);
    NoFields(FoldAll(input));
    FoldedWords(input);
  }

  /** Which code an input gets: the first of the conditions that it does not meet, in
      this order; and what is accepted is what it normalizes to. */
  lemma CodesExactly(input: Text, patterns: Patterns)
    ensures var d, query, words := Filter(Some(input), patterns), Normalize(input), |Fields(FoldAll(input))|;
            var clean := !HasForbidden(input);
            var short := clean && words > 0 && |query| <= MAX_RUNES;
            var few := short && words <= MAX_TERMS;
            && (d == Rejected(ControlCharacters) <==> !clean)
            && (d == Rejected(EmptyQuery) <==> clean && words == 0)
            && (d == Rejected(QueryTooLong) <==> clean && words > 0 && |query| > MAX_RUNES)
            && (d == Rejected(TooManyTerms) <==> short && words > MAX_TERMS)
            && (d == Rejected(UrlInQuery) <==> few && patterns.url(query))
            && (d == Rejected(CredentialInQuery) <==> few && !patterns.url(query) && patterns.credential(query))
            && (d == Rejected(InstructionInjection) <==>
                  few && !patterns.url(query) && !patterns.credential(query) && patterns.instruction(query))
            && (d == Rejected(InternalTarget) <==>
                  few && !patterns.url(query) && !patterns.credential(query) && !patterns.instruction(query)
                  && patterns.internal(query))
            && (d.Accepted? <==> few && NoPattern(query, patterns)) && (d.Accepted? ==> d.query == query)
    ensures Filter(None, patterns) == Rejected(ControlCharacters)
  {
    FoldedWords(input);
    FieldsOfJoin(Fields(FoldAll(input)));
  }

  lemma FoldedWords(s: Text)
    ensures Normalize(s) == [] <==> Fields(FoldAll(s)) == []
  {
    var words := Fields(FoldAll(s));
    if words != [] {
      assert words[0] in words;
    }
  }

  // ------------------------------------------------- the extraction worker

  /** White space as String.prototype.trim sees it: Zs, the line ends and U+FEFF. */
  predicate IsTrimmed(r: Rune) {
    || 0x09 <= r <= 0x0D || r == 0x20 || r == 0xA0 || r == 0xFEFF || r == 0x1680
    || 0x2000 <= r <= 0x200A || r == 0x2028 || r == 0x2029 || r == 0x202F || r == 0x205F || r == 0x3000
  }

  function TrimStart(s: Text): Text {
    if s == [] || !IsTrimmed(s[0]) then s else TrimStart(s[1..])
  }

  function TrimEnd(s: Text): Text {
    if s == [] || !IsTrimmed(s[|s| - 1]) then s else TrimEnd(s[..|s| - 1])
  }

  function Trim(s: Text): Text {
    TrimEnd(TrimStart(s))
  }

  ghost predicate Blank(s: Text) {
    forall r | r in s :: IsTrimmed(r)
  }

  /** Trimming takes white space from both ends, all of it, and nothing else. */
  lemma TrimMeans(s: Text) returns (before: Text, after: Text)
    ensures s == before + Trim(s) + after && Blank(before) && Blank(after)
    ensures Trim(s) != [] ==> !IsTrimmed(Trim(s)[0]) && !IsTrimmed(Trim(s)[|Trim(s)| - 1])
    ensures Trim(s) == [] <==> Blank(s)
  {
    before := StartMeans(s);
    after := EndMeans(TrimStart(s));
    var t := TrimStart(s);
    assert s == before + (Trim(s) + after);
    if Trim(s) != [] {
      assert Trim(s)[0] == t[0];
      assert Trim(s)[0] in s;
    }
  }

  lemma {:induction false} StartMeans(s: Text) returns (before: Text)
    ensures s == before + TrimStart(s) && Blank(before)
    ensures TrimStart(s) != [] ==> !IsTrimmed(TrimStart(s)[0])
  {
    if s == [] || !IsTrimmed(s[0]) {
      before := [];
    } else {
      before := StartMeans(s[1..]);
      before := [s[0]] + before;
    }
  }

  lemma {:induction false} EndMeans(s: Text) returns (after: Text)
    ensures s == TrimEnd(s) + after && Blank(after)
    ensures TrimEnd(s) != [] ==> !IsTrimmed(TrimEnd(s)[|TrimEnd(s)| - 1])
  {
    if s == [] || !IsTrimmed(s[|s| - 1]) {
      after := [];
    } else {
      after := EndMeans(s[..|s| - 1]);
      after := after + [s[|s| - 1]];
    }
  }

  /** The length of a JavaScript string: UTF-16 units. */
  function Units(s: Text): nat {
    if s == [] then 0 else (if s[0] >= 0x10000 then 2 else 1) + Units(s[1..])
  }

  lemma {:induction false} UnitsAtMostTwice(s: Text)
    ensures |s| <= Units(s) <= 2 * |s|
  {
    if s != [] {
      UnitsAtMostTwice(s[1..]);
    }
  }

  datatype Request = Request(marketplace: string, query: Text, limit: Option<int>)

  const MARKETPLACES := {"amazon", "aliexpress", "ebay"}

  function Validate(request: Request): Option<Request> {
    var query := Trim(request.query);
    if request.marketplace !in MARKETPLACES then None
    else if query == [] || Units(query) > MAX_UNITS then None
    else if request.limit.Some? && (request.limit.value < 1 || request.limit.value > 100) then None
    else Some(request.(query := query))
  }

  lemma CleanIsTrimmed(query: Text)
    requires query != [] && NormalForm(query) && !HasForbidden(query)
    ensures Trim(query) == query
  {
    assert query[0] in query && query[|query| - 1] in query;
    NotTrimmed(query[0]);
    NotTrimmed(query[|query| - 1]);
  }

  /** The next component takes every accepted query as it is. */
  lemma AcceptedQueriesPassValidation(input: Option<Text>, patterns: Patterns, marketplace: string, limit: int)
    requires Filter(input, patterns).Accepted? && marketplace in MARKETPLACES && 1 <= limit <= 100
    ensures var request := Request(marketplace, Filter(input, patterns).query, Some(limit));
            Validate(request) == Some(request)
  {
    var query := Filter(input, patterns).query;
    NormalizeIsNormal(input.value);
    FoldAddsNothingForbidden(input.value);
    CleanIsTrimmed(query);
    UnitsAtMostTwice(query);
  }

  /** The two notions of white space differ, but only on characters the filter rejects. */
  lemma NotTrimmed(r: Rune)
    requires !Forbidden(r) && !IsSpace(r)
    ensures !IsTrimmed(r)
  {
  }
}
