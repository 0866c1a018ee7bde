/** JSON texts as trees, whitespace and all, and what the walker makes of each (internal/jsonx/rewrite.go). */
module JsonText {
  import opened Sections
  import opened JsonScan
  import opened JsonNumber

  /** One character of a string, as it is written. */
  datatype Letter = Plain(b: byte) | Escaped(b: byte) | Unicode(hex: seq<byte>)

  datatype Word = True | False | Nothing

  /** A JSON value as it is written. gap is the whitespace inside empty brackets. */
  datatype Doc =
    | Str(letters: seq<Letter>)
    | Num(number: NumberText)
    | Lit(word: Word)
    | Empty(isArray: bool, gap: seq<byte>)
    | Full(isArray: bool, items: Items)

  /** The items of an array or the members of an object, up to the closing bracket. */
  datatype Items =
    | Last(lead: Lead, value: Doc, after: seq<byte>)
    | More(lead: Lead, value: Doc, after: seq<byte>, rest: Items)

  /** What comes before a value: whitespace, and in an object its name. */
  datatype Lead = Slot(pad: seq<byte>) | Named(before: seq<byte>, name: seq<Letter>, gap: seq<byte>, pad: seq<byte>)

  /** A value alone in its text. */
  datatype Whole = Whole(pre: seq<byte>, doc: Doc, post: seq<byte>)

  predicate Spaces(s: seq<byte>) { forall k :: 0 <= k < |s| ==> IsSpace(s[k]) }

  predicate GoodLetter(c: Letter) {
    match c
    case Plain(b) => b >= 0x20 && b != QUOTE && b != BACKSLASH
    case Escaped(b) => IsEscape(b)
    case Unicode(hex) => |hex| == 4 && HexAt(hex, 0, 4)
  }

  predicate GoodLetters(cs: seq<Letter>) { forall k :: 0 <= k < |cs| ==> GoodLetter(cs[k]) }

  function LetterRaw(c: Letter): seq<byte> {
    match c
    case Plain(b) => [b]
    case Escaped(b) => [BACKSLASH, b]
    case Unicode(hex) => [BACKSLASH, 0x75] + hex
  }

  function LettersRaw(cs: seq<Letter>): seq<byte>
    decreases |cs|
  {
    if cs == [] then [] else LetterRaw(cs[0]) + LettersRaw(cs[1..])
  }

  function StrRaw(cs: seq<Letter>): seq<byte> { [QUOTE] + (LettersRaw(cs) + [QUOTE]) }

  function WordRaw(w: Word): seq<byte> {
    match w case True => TRUE_TEXT case False => FALSE_TEXT case Nothing => NULL_TEXT
  }

  function Opening(isArray: bool): byte { if isArray then OPEN_ARRAY else OPEN_OBJECT }

  function Closing(isArray: bool): byte { if isArray then CLOSE_ARRAY else CLOSE_OBJECT }

  function LeadRaw(l: Lead): seq<byte> {
    match l
    case Slot(pad) => pad
    case Named(before, name, gap, pad) => before + (StrRaw(name) + (gap + ([COLON] + pad)))
  }

  /** The bytes of a value. */
  function Raw(d: Doc): seq<byte>
    decreases d
  {
    match d
    case Str(cs) => StrRaw(cs)
    case Num(n) => NumberRaw(n)
    case Lit(w) => WordRaw(w)
    case Empty(isArray, gap) => [Opening(isArray)] + (gap + [Closing(isArray)])
    case Full(isArray, items) => [Opening(isArray)] + ItemsRaw(items, isArray)
  }

  function ItemsRaw(items: Items, isArray: bool): seq<byte>
    decreases items
  {
    LeadRaw(items.lead) + (Raw(items.value) + (items.after +
      if items.Last? then [Closing(isArray)] else [COMMA] + ItemsRaw(items.rest, isArray)))
  }

  function WholeRaw(t: Whole): seq<byte> { t.pre + (Raw(t.doc) + t.post) }

  predicate GoodLead(l: Lead, isArray: bool) {
    && l.Slot? == isArray && Spaces(l.pad)
    && (l.Named? ==> Spaces(l.before) && GoodLetters(l.name) && Spaces(l.gap) && |StrRaw(l.name)| <= MAX_NAME_BYTES)
  }

  /** JSON as RFC 8259 has it, with no number or name longer than the walker takes. */
  predicate Good(d: Doc)
    decreases d
  {
    match d
    case Str(cs) => GoodLetters(cs)
    case Num(n) => GoodNumber(n) && |NumberRaw(n)| <= MAX_VISIT_STRING
    case Lit(_) => true
    case Empty(_, gap) => Spaces(gap)
    case Full(isArray, items) => GoodItems(items, isArray)
  }

  predicate GoodItems(items: Items, isArray: bool)
    decreases items
  {
    && GoodLead(items.lead, isArray) && Good(items.value) && Spaces(items.after)
    && (items.More? ==> GoodItems(items.rest, isArray))
  }

  /** How deep the brackets nest. */
  function Depth(d: Doc): nat
    decreases d
  {
    match d
    case Empty(_, _) => 1
    case Full(_, items) => 1 + ItemsDepth(items)
    case _ => 0
  }

  function ItemsDepth(items: Items): nat
    decreases items
  {
    var here := Depth(items.value);
    if items.More? && ItemsDepth(items.rest) > here then ItemsDepth(items.rest) else here
  }

  /** A text the walker takes. */
  predicate GoodWhole(t: Whole) {
    Spaces(t.pre) && Good(t.doc) && Depth(t.doc) <= MAX_DEPTH && Spaces(t.post)
  }

  predicate Scalar(d: Doc) { d.Str? || d.Num? || d.Lit? }

  /** What the visitor is shown of a scalar: a string too long to hold is only announced. */
  function CallFor(d: Doc, path: seq<PathElem>): Call
    requires Scalar(d)
  {
    match d
    case Str(cs) => if |StrRaw(cs)| <= MAX_VISIT_STRING then Call(path, Text, Raw(d)) else Call(path, LongString, [])
    case Num(n) => Call(path, Number, Raw(d))
    case Lit(w) => Call(path, if w == Nothing then Null else Bool, Raw(d))
  }

  /** A scalar as written out, after the visitor was shown `before`. */
  function AnswerFor(d: Doc, path: seq<PathElem>, before: seq<Call>, u: Setup): seq<byte>
    requires Scalar(d)
  {
    var call := CallFor(d, path);
    if u.visit.None? || call.kind == LongString then Raw(d)
    else
      var rep := u.visit.value(before + [call]);
      if rep.Some? then rep.value else Raw(d)
  }

  /** The last step of an item's path. */
  function StepOf(l: Lead, k: nat, u: Setup): PathElem {
    if l.Slot? then Index(k) else Key(if u.visit.Some? then Decoded(StrRaw(l.name), u.decode) else [])
  }

  /** All the visitor is shown of a value, in the order of the text. */
  function Shown(d: Doc, path: seq<PathElem>, u: Setup): seq<Call>
    decreases d
  {
    if Scalar(d) then if u.visit.Some? then [CallFor(d, path)] else []
    else if d.Full? then ItemsShown(d.items, path, 0, u)
    else []
  }

  function ItemsShown(items: Items, path: seq<PathElem>, k: nat, u: Setup): seq<Call>
    decreases items
  {
    Shown(items.value, path + [StepOf(items.lead, k, u)], u) +
    if items.Last? then [] else ItemsShown(items.rest, path, k + 1, u)
  }

  /** The value with every visited scalar as the visitor wants it, and every other byte as it was. */
  function Substituted(d: Doc, path: seq<PathElem>, before: seq<Call>, u: Setup): seq<byte>
    decreases d
  {
    if Scalar(d) then AnswerFor(d, path, before, u)
    else if d.Full? then [Opening(d.isArray)] + ItemsSubstituted(d.items, d.isArray, path, 0, before, u)
    else Raw(d)
  }

  function ItemsSubstituted(
      items: Items, isArray: bool, path: seq<PathElem>, k: nat, before: seq<Call>, u: Setup): seq<byte>
    decreases items
  {
    var inner := path + [StepOf(items.lead, k, u)];
    LeadRaw(items.lead) + (Substituted(items.value, inner, before, u) + (items.after +
      if items.Last? then [Closing(isArray)]
      else [COMMA] + ItemsSubstituted(items.rest, isArray, path, k + 1, before + Shown(items.value, inner, u), u)))
  }

  /** The walk once a value has been written. */
  function After(w: Walk, d: Doc, path: seq<PathElem>, u: Setup): (r: Walk)
    ensures r.at == w.at + |Raw(d)|
  {
    Walk(w.at + |Raw(d)|, w.out + Substituted(d, path, w.calls, u), w.calls + Shown(d, path, u))
  }

  function AfterItems(w: Walk, items: Items, isArray: bool, path: seq<PathElem>, k: nat, u: Setup): (r: Walk)
    ensures r.at == w.at + |ItemsRaw(items, isArray)|
  {
    Walk(
      w.at + |ItemsRaw(items, isArray)|,
      w.out + ItemsSubstituted(items, isArray, path, k, w.calls, u),
      w.calls + ItemsShown(items, path, k, u))
  }

  // Texts in place.

  /** t stands in s at i. */
  predicate At(s: seq<byte>, i: nat, t: seq<byte>) { i + |t| <= |s| && s[i..i + |t|] == t }

  lemma AtJoin(s: seq<byte>, i: nat, a: seq<byte>, b: seq<byte>)
    ensures At(s, i, a + b) <==> At(s, i, a) && At(s, i + |a|, b)
  {
    if At(s, i, a + b) {
      assert s[i..i + |a|] == (a + b)[..|a|] == a;
      assert s[i + |a|..i + |a| + |b|] == (a + b)[|a|..] == b;
    }
    if At(s, i, a) && At(s, i + |a|, b) {
      assert s[i..i + |a| + |b|] == s[i..i + |a|] + s[i + |a|..i + |a| + |b|];
    }
  }

  lemma AtByte(s: seq<byte>, i: nat, c: byte)
    ensures At(s, i, [c]) <==> i < |s| && s[i] == c
  {
    if i < |s| { assert s[i..i + 1] == [s[i]]; }
  }

  lemma AtWithin(s: seq<byte>, i: nat, t: seq<byte>)
    requires At(s, i, t)
    ensures i + |t| <= |s|
  {}

  lemma SpacesSkipped(s: seq<byte>, i: nat, t: seq<byte>)
    requires At(s, i, t) && Spaces(t)
    ensures SkipWs(s, i) == SkipWs(s, i + |t|)
    decreases |t|
  {
    if t != [] {
      assert s[i] == s[i..i + |t|][0] == t[0];
      assert At(s, i + 1, t[1..]) by { assert t == [t[0]] + t[1..]; AtJoin(s, i, [t[0]], t[1..]); }
      SpacesSkipped(s, i + 1, t[1..]);
    }
  }

  /** Where a byte that is no space follows the whitespace t. */
  lemma SpacesEnd(s: seq<byte>, i: nat, t: seq<byte>)
    requires At(s, i, t) && Spaces(t) && (i + |t| == |s| || !IsSpace(s[i + |t|]))
    ensures SkipWs(s, i) == i + |t|
  {
    SpacesSkipped(s, i, t);
  }

  lemma SpacesFound(s: seq<byte>, i: nat)
    requires i <= |s|
    ensures var t := s[i..SkipWs(s, i)]; At(s, i, t) && Spaces(t) && i + |t| == SkipWs(s, i)
  {}

  // Strings.

  lemma {:induction false} StrEndIs(s: seq<byte>, i: nat, cs: seq<Letter>)
    requires GoodLetters(cs) && At(s, i, LettersRaw(cs) + [QUOTE])
    ensures i < |s| && StrEnd(s, i) == Some(i + |LettersRaw(cs)| + 1)
    decreases |cs|
  {
    hide *;
    LettersSplit(cs);
    if cs == [] {
      QuoteEnds(s, i);
    } else {
      var c, rest := LetterRaw(cs[0]), LettersRaw(cs[1..]);
      assert (c + rest) + [QUOTE] == c + (rest + [QUOTE]);
      AtJoin(s, i, c, rest + [QUOTE]);
      LetterStep(s, i, cs[0]);
      StrEndIs(s, i + |c|, cs[1..]);
    }
  }

  lemma LettersSplit(cs: seq<Letter>)
    ensures cs == [] ==> LettersRaw(cs) + [QUOTE] == [QUOTE] && |LettersRaw(cs)| == 0 && GoodLetters(cs)
    ensures cs != [] ==> LettersRaw(cs) == LetterRaw(cs[0]) + LettersRaw(cs[1..])
    ensures cs != [] && GoodLetters(cs) ==> GoodLetter(cs[0]) && GoodLetters(cs[1..])
  {}

  lemma QuoteEnds(s: seq<byte>, i: nat)
    requires At(s, i, [QUOTE])
    ensures i < |s| && StrEnd(s, i) == Some(i + 1)
  {
    AtByte(s, i, QUOTE);
  }

  lemma LetterStep(s: seq<byte>, i: nat, c: Letter)
    requires GoodLetter(c) && At(s, i, LetterRaw(c))
    ensures i + |LetterRaw(c)| <= |s| && StrEnd(s, i) == StrEnd(s, i + |LetterRaw(c)|)
  {
    var raw := LetterRaw(c);
    forall k | 0 <= k < |raw| ensures s[i + k] == raw[k] { assert s[i + k] == s[i..i + |raw|][k]; }
    if c.Unicode? {
      forall k | i + 2 <= k < i + 6 ensures IsHex(s[k]) { assert s[k] == raw[k - i] == c.hex[k - i - 2]; }
    }
  }

  /** The letters of the string whose content goes on at i. */
  lemma {:induction false} StrRead(s: seq<byte>, i: nat) returns (cs: seq<Letter>)
    requires i <= |s| && StrEnd(s, i).Some?
    ensures GoodLetters(cs) && At(s, i, LettersRaw(cs) + [QUOTE]) && StrEnd(s, i).value == i + |LettersRaw(cs)| + 1
    decreases |s| - i
  {
    hide *;
    if s[i] == QUOTE {
      cs := [];
      LettersSplit(cs);
      AtByte(s, i, QUOTE);
      QuoteEnds(s, i);
    } else {
      var c := LetterRead(s, i);
      var rest := StrRead(s, i + |LetterRaw(c)|);
      cs := [c] + rest;
      assert cs[0] == c && cs[1..] == rest;
      LettersJoin(c, rest);
      AtJoin(s, i, LetterRaw(c), LettersRaw(rest) + [QUOTE]);
      assert LetterRaw(c) + (LettersRaw(rest) + [QUOTE]) == (LetterRaw(c) + LettersRaw(rest)) + [QUOTE];
    }
  }

  lemma LettersJoin(c: Letter, rest: seq<Letter>)
    ensures LettersRaw([c] + rest) == LetterRaw(c) + LettersRaw(rest)
    ensures GoodLetter(c) && GoodLetters(rest) ==> GoodLetters([c] + rest)
  {
    assert ([c] + rest)[1..] == rest;
  }

  lemma LetterRead(s: seq<byte>, i: nat) returns (c: Letter)
    requires i <= |s| && StrEnd(s, i).Some? && s[i] != QUOTE
    ensures GoodLetter(c) && At(s, i, LetterRaw(c)) && |LetterRaw(c)| > 0
    ensures StrEnd(s, i) == StrEnd(s, i + |LetterRaw(c)|)
  {
    c := if s[i] != BACKSLASH then Plain(s[i])
         else if s[i + 1] == 0x75 then Unicode(s[i + 2..i + 6])
         else Escaped(s[i + 1]);
    if c.Unicode? {
      assert GoodLetter(c);
      assert s[i..i + 6] == [BACKSLASH, 0x75] + c.hex;
    } else {
      assert s[i..i + |LetterRaw(c)|] == LetterRaw(c);
    }
    LetterStep(s, i, c);
  }

  // Numbers.

  lemma {:induction false} NumEndIs(s: seq<byte>, i: nat, state: NumState, t: seq<byte>)
    requires At(s, i, t) && Takes(state, t).Some?
    requires i + |t| == |s| || NumStep(Takes(state, t).value, s[i + |t|]).None?
    ensures NumEnd(s, i, state) == (i + |t|, Takes(state, t).value)
    decreases |t|
  {
    if t != [] {
      assert s[i] == s[i..i + |t|][0] == t[0];
      assert t == [t[0]] + t[1..];
      AtJoin(s, i, [t[0]], t[1..]);
      NumEndIs(s, i + 1, NumStep(state, t[0]).value, t[1..]);
    }
  }

  lemma {:induction false} NumEndTakes(s: seq<byte>, i: nat, state: NumState)
    requires i <= |s|
    ensures var (j, last) := NumEnd(s, i, state);
            Takes(state, s[i..j]) == Some(last) && (j == |s| || NumStep(last, s[j]).None?)
    decreases |s| - i
  {
    if i < |s| && NumStep(state, s[i]).Some? {
      NumEndTakes(s, i + 1, NumStep(state, s[i]).value);
      var j := NumEnd(s, i, state).0;
      assert s[i..j][1..] == s[i + 1..j];
    }
  }

  /** What may stand after a value. */
  predicate Ends(s: seq<byte>, j: nat) {
    j <= |s| && (j < |s| ==> IsSpace(s[j]) || s[j] == COMMA || s[j] == CLOSE_ARRAY || s[j] == CLOSE_OBJECT)
  }

  /** Whether the walker sees that the value before j ends there. */
  predicate Stops(s: seq<byte>, j: nat, d: Doc) {
    d.Num? ==>
      && j <= |s| && Completes(NumStart, NumberRaw(d.number))
      && (j == |s| || NumStep(Takes(NumStart, NumberRaw(d.number)).value, s[j]).None?)
  }

  lemma EndsStops(s: seq<byte>, j: nat, d: Doc)
    requires Ends(s, j) && Good(d)
    ensures Stops(s, j, d)
  {
    if d.Num? { NumberTaken(d.number); }
  }

  // Scalars.

  /** The first byte of a value tells its kind; it is no space and closes nothing. */
  predicate Begins(c: byte, d: Doc) {
    match d
    case Str(_) => c == QUOTE
    case Num(_) => c == MINUS || IsDigit(c)
    case Lit(w) => c == (match w case True => 0x74 case False => 0x66 case Nothing => 0x6E)
    case Empty(isArray, _) => c == Opening(isArray)
    case Full(isArray, _) => c == Opening(isArray)
  }

  lemma FirstByte(d: Doc)
    requires Good(d)
    ensures Raw(d) != [] && Begins(Raw(d)[0], d)
  {}

  lemma BeginsPlain(c: byte, d: Doc)
    requires Begins(c, d)
    ensures !IsSpace(c) && c != CLOSE_ARRAY && c != CLOSE_OBJECT
    ensures Scalar(d) ==> c != OPEN_ARRAY && c != OPEN_OBJECT
  {}

  lemma AtFirst(s: seq<byte>, i: nat, d: Doc)
    requires Good(d) && At(s, i, Raw(d))
    ensures i < i + |Raw(d)| <= |s| && Begins(s[i], d)
  {
    FirstByte(d);
    assert s[i] == s[i..i + |Raw(d)|][0];
  }

  lemma VisitedIs(s: seq<byte>, v: Walk, d: Doc, path: seq<PathElem>, kind: Kind, u: Setup)
    requires Scalar(d) && At(s, v.at, Raw(d)) && CallFor(d, path) == Call(path, kind, Raw(d)) && kind != LongString
    ensures Visited(s, v, v.at + |Raw(d)|, path, kind, u.visit) == After(v, d, path, u)
  {
    if u.visit.None? { assert v.calls + [] == v.calls; }
  }

  lemma TextIs(s: seq<byte>, v: Walk, d: Doc, path: seq<PathElem>, u: Setup)
    requires d.Str? && Good(d) && At(s, v.at, Raw(d)) && v.at < |s| && s[v.at] == QUOTE
    ensures TextRun(s, v, path, u.visit) == Some(After(v, d, path, u))
  {
    AtJoin(s, v.at, [QUOTE], LettersRaw(d.letters) + [QUOTE]);
    StrEndIs(s, v.at + 1, d.letters);
    assert StrEnd(s, v.at + 1) == Some(v.at + |Raw(d)|);
    if |Raw(d)| <= MAX_VISIT_STRING {
      VisitedIs(s, v, d, path, Text, u);
    } else if u.visit.None? {
      assert v.calls + [] == v.calls;
    }
  }

  lemma NumberIs(s: seq<byte>, v: Walk, d: Doc, path: seq<PathElem>, u: Setup)
    requires d.Num? && Good(d) && At(s, v.at, Raw(d)) && v.at < |s| && Stops(s, v.at + |Raw(d)|, d)
    ensures NumberRun(s, v, path, u.visit) == Some(After(v, d, path, u))
  {
    NumEndIs(s, v.at, NumStart, Raw(d));
    VisitedIs(s, v, d, path, Number, u);
  }

  lemma LiteralIs(s: seq<byte>, v: Walk, d: Doc, path: seq<PathElem>, u: Setup)
    requires d.Lit? && At(s, v.at, Raw(d)) && v.at < |s|
    ensures LiteralRun(s, v, WordRaw(d.word), path, if d.word == Nothing then Null else Bool, u.visit)
              == Some(After(v, d, path, u))
  {
    assert Raw(d) <= s[v.at..] by { assert s[v.at..][..|Raw(d)|] == s[v.at..v.at + |Raw(d)|]; }
    VisitedIs(s, v, d, path, if d.word == Nothing then Null else Bool, u);
  }

  lemma ScalarRunIs(s: seq<byte>, v: Walk, d: Doc, path: seq<PathElem>, u: Setup)
    requires Scalar(d) && Good(d) && At(s, v.at, Raw(d)) && Stops(s, v.at + |Raw(d)|, d)
    ensures v.at < |s| && ScalarRun(s, v, path, u.visit) == Some(After(v, d, path, u))
  {
    AtFirst(s, v.at, d);
    hide After, Raw, TextRun, NumberRun, LiteralRun, Good, At;
    match d
    case Str(_) => TextIs(s, v, d, path, u);
    case Num(_) => NumberIs(s, v, d, path, u);
    case Lit(_) => LiteralIs(s, v, d, path, u);
  }
}
