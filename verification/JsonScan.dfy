/**
 * JSON text walked value by value, on the whole text at once (internal/jsonx/rewrite.go): what the
 * walker must do however its reader hands it the bytes.
 */
module JsonScan {
  import opened Sections

  newtype byte = x: int | 0 <= x < 256

  const QUOTE: byte := 0x22
  const BACKSLASH: byte := 0x5C
  const COMMA: byte := 0x2C
  const COLON: byte := 0x3A
  const OPEN_OBJECT: byte := 0x7B
  const CLOSE_OBJECT: byte := 0x7D
  const OPEN_ARRAY: byte := 0x5B
  const CLOSE_ARRAY: byte := 0x5D
  const MINUS: byte := 0x2D
  const PLUS: byte := 0x2B
  const POINT: byte := 0x2E
  const ZERO: byte := 0x30
  const TRUE_TEXT: seq<byte> := [0x74, 0x72, 0x75, 0x65]
  const FALSE_TEXT: seq<byte> := [0x66, 0x61, 0x6C, 0x73, 0x65]
  const NULL_TEXT: seq<byte> := [0x6E, 0x75, 0x6C, 0x6C]

  const MAX_VISIT_STRING := 4096
  const MAX_NAME_BYTES := 4096
  const MAX_DEPTH := 10000

  predicate IsSpace(c: byte) { c == 0x20 || c == 0x09 || c == 0x0D || c == 0x0A }

  predicate IsDigit(c: byte) { 0x30 <= c <= 0x39 }

  predicate IsHex(c: byte) { IsDigit(c) || 0x61 <= c <= 0x66 || 0x41 <= c <= 0x46 }

  /** The characters that may follow a backslash, other than u. */
  predicate IsEscape(c: byte) {
    c in {QUOTE, BACKSLASH, 0x2F, 0x62, 0x66, 0x6E, 0x72, 0x74}
  }

  datatype PathElem = Key(name: seq<byte>) | Index(i: nat)

  datatype Kind = Text | Number | Bool | Null | LongString

  /** What a visitor is shown. */
  datatype Call = Call(path: seq<PathElem>, kind: Kind, raw: seq<byte>)

  /** A visitor answers each call, knowing those before it: a replacement, or nothing to keep the bytes. */
  type Visitor = seq<Call> -> Option<seq<byte>>

  /** The first position from i on that is not whitespace, or the end. */
  function SkipWs(s: seq<byte>, i: nat): (r: nat)
    requires i <= |s|
    ensures i <= r <= |s| && (r < |s| ==> !IsSpace(s[r]))
    ensures forall k :: i <= k < r ==> IsSpace(s[k])
    decreases |s| - i
  {
    if i < |s| && IsSpace(s[i]) then SkipWs(s, i + 1) else i
  }

  /** Whether n hex digits follow. */
  predicate HexAt(s: seq<byte>, i: nat, n: nat) {
    i + n <= |s| && forall k :: i <= k < i + n ==> IsHex(s[k])
  }

  /** Where the string whose content goes on at i ends, after its closing quote. */
  function StrEnd(s: seq<byte>, i: nat): (r: Option<nat>)
    requires i <= |s|
    ensures r.Some? ==> i < r.value <= |s|
    decreases |s| - i
  {
    if i == |s| then None
    else if s[i] == QUOTE then Some(i + 1)
    else if s[i] < 0x20 then None
    else if s[i] != BACKSLASH then StrEnd(s, i + 1)
    else if i + 1 == |s| then None
    else if IsEscape(s[i + 1]) then StrEnd(s, i + 2)
    else if s[i + 1] == 0x75 && HexAt(s, i + 2, 4) then StrEnd(s, i + 6)
    else None
  }

  /** The states of the number grammar. */
  datatype NumState = NumStart | NumSign | NumZero | NumInt | NumDot | NumFrac | NumE | NumESign | NumExp

  function NumStep(state: NumState, c: byte): Option<NumState> {
    match state
    case NumStart =>
      if c == MINUS then Some(NumSign) else if c == ZERO then Some(NumZero)
      else if IsDigit(c) then Some(NumInt) else None
    case NumSign => if c == ZERO then Some(NumZero) else if IsDigit(c) then Some(NumInt) else None
    case NumZero => if c == POINT then Some(NumDot) else if c == 0x65 || c == 0x45 then Some(NumE) else None
    case NumInt =>
      if IsDigit(c) then Some(NumInt) else if c == POINT then Some(NumDot)
      else if c == 0x65 || c == 0x45 then Some(NumE) else None
    case NumDot => if IsDigit(c) then Some(NumFrac) else None
    case NumFrac => if IsDigit(c) then Some(NumFrac) else if c == 0x65 || c == 0x45 then Some(NumE) else None
    case NumE => if c == PLUS || c == MINUS then Some(NumESign) else if IsDigit(c) then Some(NumExp) else None
    case NumESign => if IsDigit(c) then Some(NumExp) else None
    case NumExp => if IsDigit(c) then Some(NumExp) else None
  }

  predicate NumComplete(state: NumState) {
    state == NumZero || state == NumInt || state == NumFrac || state == NumExp
  }

  /** As far as a number goes from i on, and the state it is in there. */
  function NumEnd(s: seq<byte>, i: nat, state: NumState): (r: (nat, NumState))
    requires i <= |s|
    ensures i <= r.0 <= |s|
    decreases |s| - i
  {
    if i < |s| && NumStep(state, s[i]).Some? then NumEnd(s, i + 1, NumStep(state, s[i]).value) else (i, state)
  }

  /** How far the walk is, what it has written, and what the visitor was shown. */
  datatype Walk = Walk(at: nat, out: seq<byte>, calls: seq<Call>)

  /** Copied up to j. */
  function Copied(s: seq<byte>, w: Walk, j: nat): Walk
    requires w.at <= j <= |s|
  {
    Walk(j, w.out + s[w.at..j], w.calls)
  }

  /** The scalar up to j shown to the visitor, if there is one, and its answer written. */
  function Visited(s: seq<byte>, w: Walk, j: nat, path: seq<PathElem>, kind: Kind, visit: Option<Visitor>): Walk
    requires w.at <= j <= |s|
  {
    if visit.None? then Copied(s, w, j)
    else
      var raw := s[w.at..j];
      var calls := w.calls + [Call(path, kind, raw)];
      var rep := visit.value(calls);
      Walk(j, w.out + if rep.Some? then rep.value else raw, calls)
  }

  /** The string at w.at. One too long to visit is copied, and the visitor told of it. */
  function TextRun(s: seq<byte>, w: Walk, path: seq<PathElem>, visit: Option<Visitor>): (r: Option<Walk>)
    requires w.at < |s| && s[w.at] == QUOTE
    ensures r.Some? ==> w.at < r.value.at <= |s|
  {
    var e := StrEnd(s, w.at + 1);
    if e.None? then None
    else if e.value - w.at <= MAX_VISIT_STRING || visit.None? then Some(Visited(s, w, e.value, path, Text, visit))
    else
      var c := Copied(s, w, e.value);
      Some(c.(calls := c.calls + [Call(path, LongString, [])]))
  }

  function NumberRun(s: seq<byte>, w: Walk, path: seq<PathElem>, visit: Option<Visitor>): (r: Option<Walk>)
    requires w.at < |s|
    ensures r.Some? ==> w.at < r.value.at <= |s|
  {
    var e := NumEnd(s, w.at, NumStart);
    if !NumComplete(e.1) || e.0 - w.at > MAX_VISIT_STRING then None
    else
      assert e.0 > w.at;
      Some(Visited(s, w, e.0, path, Number, visit))
  }

  function LiteralRun(
      s: seq<byte>, w: Walk, lit: seq<byte>, path: seq<PathElem>, kind: Kind, visit: Option<Visitor>): (r: Option<Walk>)
    requires w.at < |s| && lit != []
    ensures r.Some? ==> w.at < r.value.at <= |s|
  {
    if lit <= s[w.at..] then Some(Visited(s, w, w.at + |lit|, path, kind, visit)) else None
  }

  /** A scalar at w.at. */
  function ScalarRun(s: seq<byte>, w: Walk, path: seq<PathElem>, visit: Option<Visitor>): (r: Option<Walk>)
    requires w.at < |s|
    ensures r.Some? ==> w.at < r.value.at <= |s|
  {
    var c := s[w.at];
    if c == QUOTE then TextRun(s, w, path, visit)
    else if c == 0x74 then LiteralRun(s, w, TRUE_TEXT, path, Bool, visit)
    else if c == 0x66 then LiteralRun(s, w, FALSE_TEXT, path, Bool, visit)
    else if c == 0x6E then LiteralRun(s, w, NULL_TEXT, path, Null, visit)
    else if c == MINUS || IsDigit(c) then NumberRun(s, w, path, visit)
    else None
  }

  /** A member name and its colon, from w.at on: the name as written, and the walk after the colon. */
  function NameRun(s: seq<byte>, w: Walk): (r: Option<(seq<byte>, Walk)>)
    requires w.at <= |s|
    ensures r.Some? ==> w.at < r.value.1.at <= |s|
  {
    var i := SkipWs(s, w.at);
    if i == |s| || s[i] != QUOTE || StrEnd(s, i + 1).None? then None
    else
      var e := StrEnd(s, i + 1).value;
      var j := SkipWs(s, e);
      if e - i > MAX_NAME_BYTES || j == |s| || s[j] != COLON then None
      else Some((s[i..e], Copied(s, w, j + 1)))
  }

  /** A member's name as the visitor sees it: without a backslash, the bytes between the quotes. */
  function Decoded(raw: seq<byte>, decode: seq<byte> -> seq<byte>): seq<byte> {
    if BACKSLASH in raw || |raw| < 2 then decode(raw) else raw[1..|raw| - 1]
  }

  /** How the visitor and the names are to be read. */
  datatype Setup = Setup(visit: Option<Visitor>, decode: seq<byte> -> seq<byte>)

  function NamedPath(path: seq<PathElem>, raw: seq<byte>, u: Setup): (r: seq<PathElem>)
    requires path != []
    ensures |r| == |path| && r[..|path| - 1] == path[..|path| - 1]
  {
    path[|path| - 1 := Key(if u.visit.Some? then Decoded(raw, u.decode) else [])]
  }

  /**
   * The rest of a value: path holds the containers open in it, from floor on, innermost last. Either a
   * value is due, or one has just ended.
   */
  function ValueRun(s: seq<byte>, w: Walk, path: seq<PathElem>, floor: nat, ended: bool, u: Setup): (r: Option<Walk>)
    requires w.at <= |s| && floor <= |path|
    ensures r.Some? ==> w.at <= r.value.at <= |s|
    decreases |s| - w.at, 1
  {
    if ended && |path| == floor then Some(w)
    else
      var i := SkipWs(s, w.at);
      if i == |s| then None
      else
        var v := Copied(s, w, i);
        if ended then NextRun(s, v, path, floor, u) else StartRun(s, v, path, floor, u)
  }

  /** What follows a value inside a container. */
  function NextRun(s: seq<byte>, v: Walk, path: seq<PathElem>, floor: nat, u: Setup): (r: Option<Walk>)
    requires v.at < |s| && floor < |path|
    ensures r.Some? ==> v.at <= r.value.at <= |s|
    decreases |s| - v.at, 0
  {
    var top, c := path[|path| - 1], s[v.at];
    var next := Copied(s, v, v.at + 1);
    if c == COMMA then
      if top.Index? then ValueRun(s, next, path[|path| - 1 := Index(top.i + 1)], floor, false, u)
      else
        var n := NameRun(s, next);
        if n.None? then None else ValueRun(s, n.value.1, NamedPath(path, n.value.0, u), floor, false, u)
    else if c == (if top.Index? then CLOSE_ARRAY else CLOSE_OBJECT) then
      ValueRun(s, next, path[..|path| - 1], floor, true, u)
    else None
  }

  /** Where a value starts. */
  function StartRun(s: seq<byte>, v: Walk, path: seq<PathElem>, floor: nat, u: Setup): (r: Option<Walk>)
    requires v.at < |s| && floor <= |path|
    ensures r.Some? ==> v.at <= r.value.at <= |s|
    decreases |s| - v.at, 0
  {
    var c := s[v.at];
    if c == OPEN_OBJECT || c == OPEN_ARRAY then
      if |path| - floor >= MAX_DEPTH then None
      else
        var i := SkipWs(s, v.at + 1);
        if i == |s| then None
        else
          var inside := Copied(s, v, i);
          var deeper := path + [if c == OPEN_ARRAY then Index(0) else Key([])];
          if s[i] == (if c == OPEN_ARRAY then CLOSE_ARRAY else CLOSE_OBJECT) then
            ValueRun(s, Copied(s, inside, i + 1), path, floor, true, u)
          else if c == OPEN_ARRAY then ValueRun(s, inside, deeper, floor, false, u)
          else
            var n := NameRun(s, inside);
            if n.None? then None else ValueRun(s, n.value.1, NamedPath(deeper, n.value.0, u), floor, false, u)
    else
      var w := ScalarRun(s, v, path, u.visit);
      if w.None? then None else ValueRun(s, w.value, path, floor, true, u)
  }

  /** The whole text: one value, and nothing but whitespace around it. */
  function RewriteRun(s: seq<byte>, prefix: seq<PathElem>, u: Setup): Option<Walk> {
    var w := ValueRun(s, Walk(0, [], []), prefix, |prefix|, false, u);
    if w.None? || SkipWs(s, w.value.at) < |s| then None else Some(Copied(s, w.value, |s|))
  }

  /** The text up to j consumed and not copied. */
  function Dropped(w: Walk, j: nat): Walk { Walk(j, w.out, w.calls) }

  /**
   * The items of an array from w.at on, the n before it written: each value copied or rewritten, with single commas
   * between them, and nothing else. The walk is then past the closing bracket; the number is that of the items.
   */
  function SpliceRun(s: seq<byte>, w: Walk, base: seq<PathElem>, k: nat, n: nat, u: Setup): (r: Option<(Walk, nat)>)
    requires w.at <= |s|
    ensures r.Some? ==> w.at <= r.value.0.at <= |s|
    decreases |s| - w.at
  {
    var i, path := SkipWs(s, w.at), base + [Index(k)];
    if i == |s| then None
    else
      var v := ValueRun(s, Walk(i, w.out + if n > 0 then [COMMA] else [], w.calls), path, |path|, false, u);
      if v.None? then None
      else
        var j := SkipWs(s, v.value.at);
        if j == |s| then None
        else if s[j] == CLOSE_ARRAY then Some((Dropped(v.value, j + 1), n + 1))
        else if s[j] == COMMA then SpliceRun(s, Dropped(v.value, j + 1), base, k + 1, n + 1, u)
        else None
  }

  /** An array at w.at, its items numbered from k on. */
  function ArrayRun(s: seq<byte>, w: Walk, path: seq<PathElem>, k: nat, u: Setup): (r: Option<(Walk, nat)>)
    requires w.at <= |s|
    ensures r.Some? ==> w.at < r.value.0.at <= |s|
  {
    var i := SkipWs(s, w.at);
    if i == |s| || s[i] != OPEN_ARRAY then None
    else
      var j := SkipWs(s, i + 1);
      if j == |s| then None
      else if s[j] == CLOSE_ARRAY then Some((Dropped(w, j + 1), 0))
      else SpliceRun(s, Dropped(w, j), path, k, 0, u)
  }

  /** An array alone in its text. */
  function ArrayItemsRun(s: seq<byte>, prefix: seq<PathElem>, k: nat, u: Setup): Option<(Walk, nat)> {
    var r := ArrayRun(s, Walk(0, [], []), prefix, k, u);
    if r.None? || SkipWs(s, r.value.0.at) < |s| then None else r
  }

  /** What a value's first byte makes of the walk. */
  lemma StartIs(s: seq<byte>, w: Walk, path: seq<PathElem>, floor: nat, u: Setup)
    requires w.at <= |s| && floor <= |path|
    ensures SkipWs(s, w.at) == |s| ==> ValueRun(s, w, path, floor, false, u).None?
    ensures SkipWs(s, w.at) < |s| ==>
              ValueRun(s, w, path, floor, false, u) == StartRun(s, Copied(s, w, SkipWs(s, w.at)), path, floor, u)
  {}

  /** What follows an ended value. */
  lemma NextIs(s: seq<byte>, w: Walk, path: seq<PathElem>, floor: nat, u: Setup)
    requires w.at <= |s| && floor < |path|
    ensures SkipWs(s, w.at) == |s| ==> ValueRun(s, w, path, floor, true, u).None?
    ensures SkipWs(s, w.at) < |s| ==>
              ValueRun(s, w, path, floor, true, u) == NextRun(s, Copied(s, w, SkipWs(s, w.at)), path, floor, u)
  {}

  lemma EndIs(s: seq<byte>, w: Walk, path: seq<PathElem>, u: Setup)
    requires w.at <= |s|
    ensures ValueRun(s, w, path, |path|, true, u) == Some(w)
  {}

  lemma ScalarIs(s: seq<byte>, v: Walk, path: seq<PathElem>, floor: nat, u: Setup)
    requires v.at < |s| && floor <= |path| && s[v.at] != OPEN_OBJECT && s[v.at] != OPEN_ARRAY
    ensures var w := ScalarRun(s, v, path, u.visit);
            StartRun(s, v, path, floor, u) == if w.None? then None else ValueRun(s, w.value, path, floor, true, u)
  {}

  lemma OpenIs(s: seq<byte>, v: Walk, path: seq<PathElem>, floor: nat, isArray: bool, u: Setup)
    requires v.at < |s| && floor <= |path| && s[v.at] == if isArray then OPEN_ARRAY else OPEN_OBJECT
    ensures var i := SkipWs(s, v.at + 1);
            if |path| - floor >= MAX_DEPTH || i == |s| then StartRun(s, v, path, floor, u).None?
            else
              var inside, deeper := Copied(s, v, i), path + [if isArray then Index(0) else Key([])];
              if s[i] == (if isArray then CLOSE_ARRAY else CLOSE_OBJECT) then
                StartRun(s, v, path, floor, u) == ValueRun(s, Copied(s, inside, i + 1), path, floor, true, u)
              else if isArray then StartRun(s, v, path, floor, u) == ValueRun(s, inside, deeper, floor, false, u)
              else if NameRun(s, inside).None? then StartRun(s, v, path, floor, u).None?
              else
                var n := NameRun(s, inside).value;
                StartRun(s, v, path, floor, u) == ValueRun(s, n.1, NamedPath(deeper, n.0, u), floor, false, u)
  {}

  lemma FollowIs(s: seq<byte>, v: Walk, path: seq<PathElem>, floor: nat, u: Setup)
    requires v.at < |s| && floor < |path|
    ensures var top, c, next, r := path[|path| - 1], s[v.at], Copied(s, v, v.at + 1), NextRun(s, v, path, floor, u);
            && (c == COMMA && top.Index? ==>
                  r == ValueRun(s, next, path[|path| - 1 := Index(top.i + 1)], floor, false, u))
            && (c == COMMA && top.Key? && NameRun(s, next).None? ==> r.None?)
            && (c == COMMA && top.Key? && NameRun(s, next).Some? ==>
                  r == ValueRun(s, NameRun(s, next).value.1, NamedPath(path, NameRun(s, next).value.0, u), floor,
                                false, u))
            && (c != COMMA && c == (if top.Index? then CLOSE_ARRAY else CLOSE_OBJECT) ==>
                  r == ValueRun(s, next, path[..|path| - 1], floor, true, u))
            && (c != COMMA && c != (if top.Index? then CLOSE_ARRAY else CLOSE_OBJECT) ==> r.None?)
  {}

  /** The next item of an array, and what follows it. */
  lemma SpliceIs(s: seq<byte>, w: Walk, base: seq<PathElem>, k: nat, n: nat, u: Setup)
    requires w.at <= |s|
    ensures var i, path, r := SkipWs(s, w.at), base + [Index(k)], SpliceRun(s, w, base, k, n, u);
            if i == |s| then r.None?
            else
              var v := ValueRun(s, Walk(i, w.out + if n > 0 then [COMMA] else [], w.calls), path, |path|, false, u);
              if v.None? then r.None?
              else
                var j := SkipWs(s, v.value.at);
                && (j == |s| ==> r.None?)
                && (j < |s| && s[j] == CLOSE_ARRAY ==> r == Some((Dropped(v.value, j + 1), n + 1)))
                && (j < |s| && s[j] == COMMA ==> r == SpliceRun(s, Dropped(v.value, j + 1), base, k + 1, n + 1, u))
                && (j < |s| && s[j] != CLOSE_ARRAY && s[j] != COMMA ==> r.None?)
  {
    hide ValueRun, StartRun, NextRun, NameRun, SkipWs, Dropped;
  }

  lemma ArrayIs(s: seq<byte>, w: Walk, path: seq<PathElem>, k: nat, u: Setup)
    requires w.at <= |s|
    ensures var i, r := SkipWs(s, w.at), ArrayRun(s, w, path, k, u);
            if i == |s| || s[i] != OPEN_ARRAY then r.None?
            else
              var j := SkipWs(s, i + 1);
              && (j == |s| ==> r.None?)
              && (j < |s| && s[j] == CLOSE_ARRAY ==> r == Some((Dropped(w, j + 1), 0)))
              && (j < |s| && s[j] != CLOSE_ARRAY ==> r == SpliceRun(s, Dropped(w, j), path, k, 0, u))
  {}

  lemma DroppedIs(w: Walk, j: nat)
    ensures Dropped(w, j) == Walk(j, w.out, w.calls)
  {}
}
