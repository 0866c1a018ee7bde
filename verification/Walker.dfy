/**
 * The walker as the program runs it (internal/jsonx/rewrite.go:111-708): over its own buffer, refilled
 * from a reader that hands the text out in pieces of its choosing, copying what it has consumed in runs.
 */
module Walker {
  import opened Sections
  import opened JsonScan
  import opened JsonObject

  /** What one read returns: some bytes, and whether the text or the reader ends there. */
  datatype Status = More | End | Fail
  datatype Chunk = Chunk(data: seq<byte>, status: Status)

  /** Reads in a row that may return nothing. */
  const MAX_EMPTY := 100

  /** What a reader has to give: its bytes, and whether they end well. */
  datatype Stream = Stream(data: seq<byte>, fine: bool)

  /** What is read from now on, after empty chunks in a row; past the last chunk the text has ended. */
  function Rest(chunks: seq<Chunk>, empty: nat): Stream
    decreases |chunks|
  {
    if chunks == [] then Stream([], true)
    else
      var c := chunks[0];
      match c.status
      case End => Stream(c.data, true)
      case Fail => Stream(c.data, false)
      case More =>
        if c.data != [] then
          var r := Rest(chunks[1..], 0);
          Stream(c.data + r.data, r.fine)
        else if empty >= MAX_EMPTY then Stream([], false)
        else Rest(chunks[1..], empty + 1)
  }

  function Next(chunks: seq<Chunk>): Chunk { if chunks == [] then Chunk([], End) else chunks[0] }

  function After(chunks: seq<Chunk>): seq<Chunk> { if chunks == [] then [] else chunks[1..] }

  /** No read returns more than it was asked for. */
  ghost predicate Fits(chunks: seq<Chunk>, size: nat) {
    forall k :: 0 <= k < |chunks| ==> |chunks[k].data| <= size
  }

  lemma FitsNext(chunks: seq<Chunk>, size: nat)
    requires Fits(chunks, size)
    ensures |Next(chunks).data| <= size && Fits(After(chunks), size)
  {}

  /** The reader gives s from i on. */
  ghost predicate Comes(chunks: seq<Chunk>, empty: nat, s: seq<byte>, i: nat, fine: bool) {
    i <= |s| && Rest(chunks, empty) == Stream(s[i..], fine)
  }

  /** What one read leaves to come of what was to come. */
  lemma ComesNext(chunks: seq<Chunk>, empty: nat, s: seq<byte>, i: nat, fine: bool)
    requires Comes(chunks, empty, s, i, fine)
    ensures var c := Next(chunks);
            && i + |c.data| <= |s| && (forall k :: 0 <= k < |c.data| ==> c.data[k] == s[i + k])
            && (c.status == End ==> i + |c.data| == |s| && fine)
            && (c.status == Fail ==> i + |c.data| == |s| && !fine)
            && (c.status == More && c.data != [] ==> Comes(After(chunks), 0, s, i + |c.data|, fine))
            && (c.status == More && c.data == [] && empty < MAX_EMPTY ==> Comes(After(chunks), empty + 1, s, i, fine))
            && (c.status == More && c.data == [] && empty >= MAX_EMPTY ==> !fine && i == |s|)
  {
    var c, tail := Next(chunks), s[i..];
    RestNext(chunks, empty, tail, fine);
    assert forall k :: 0 <= k < |c.data| ==> c.data[k] == tail[k];
    assert tail[|c.data|..] == s[i + |c.data|..];
  }

  lemma RestNext(chunks: seq<Chunk>, empty: nat, tail: seq<byte>, fine: bool)
    requires Rest(chunks, empty) == Stream(tail, fine)
    ensures var c := Next(chunks);
            && c.data <= tail
            && (c.status == End ==> tail == c.data && fine)
            && (c.status == Fail ==> tail == c.data && !fine)
            && (c.status == More && c.data != [] ==> Rest(After(chunks), 0) == Stream(tail[|c.data|..], fine))
            && (c.status == More && c.data == [] && empty < MAX_EMPTY ==>
                Rest(After(chunks), empty + 1) == Stream(tail, fine))
            && (c.status == More && c.data == [] && empty >= MAX_EMPTY ==> !fine && tail == [])
  {}

  /** What scanString retains of the bytes it consumes. */
  datatype Keep = KeepNone | KeepScalar | KeepName

  lemma SkipStops(s: seq<byte>, i: nat)
    requires i <= |s| && (i < |s| ==> !IsSpace(s[i]))
    ensures SkipWs(s, i) == i
  {}

  lemma SkipGoes(s: seq<byte>, i: nat)
    requires i < |s| && IsSpace(s[i])
    ensures SkipWs(s, i) == SkipWs(s, i + 1)
  {}

  class Walker {
    const buf: array<byte>
    const hasOut: bool
    const decode: seq<byte> -> seq<byte>
    var chunks: seq<Chunk>
    var pos: nat
    var end: nat
    var base: nat
    var eof: bool
    var failed: bool
    var out: seq<byte>
    var emit: bool
    var mark: nat
    var visit: Option<Visitor>
    var calls: seq<Call>
    var path: seq<PathElem>
    var scalar: seq<byte>
    var name: seq<byte>
    var keep: Keep
    var spilled: bool

    /** The whole text, and whether the reader gives all of it. */
    ghost const input: seq<byte>
    ghost const fine: bool

    constructor (
        size: nat, chunks: seq<Chunk>, hasOut: bool, prefix: seq<PathElem>, visit: Option<Visitor>,
        decode: seq<byte> -> seq<byte>)
      requires size > 0 && Fits(chunks, size)
      ensures Valid() && fresh(buf) && this.hasOut == hasOut && this.decode == decode && this.visit == visit
      ensures input == Rest(chunks, 0).data && fine == Rest(chunks, 0).fine
      ensures At() == 0 && Written() == [] && calls == [] && path == prefix && !emit
    {
      this.buf := new byte[size];
      this.hasOut, this.decode, this.chunks := hasOut, decode, chunks;
      pos, end, base, mark, eof, failed, emit := 0, 0, 0, 0, false, false, false;
      out, calls, path, scalar, name := [], [], prefix, [], [];
      this.visit, keep, spilled := visit, KeepNone, false;
      input, fine := Rest(chunks, 0).data, Rest(chunks, 0).fine;
    }

    ghost predicate Valid()
      reads this, buf
    {
      Sound(0)
    }

    /** The buffer holds the text from base on, and the reader gives the rest, after empty reads so far. */
    ghost predicate Sound(empty: nat)
      reads this, buf
    {
      && mark <= pos <= end <= buf.Length && 0 < buf.Length
      && base + end <= |input| && (forall k :: 0 <= k < end ==> buf[k] == input[base + k])
      && Fits(chunks, buf.Length)
      && (failed ==> !fine) && (eof ==> fine) && (eof || failed ==> base + end == |input|)
      && (!eof && !failed ==> Comes(chunks, empty, input, base + end, fine))
    }

    /** How much of the text has been consumed. */
    ghost function At(): nat
      reads this
    {
      base + pos
    }

    /** What has gone out, once the pending run does. */
    ghost function Written(): seq<byte>
      requires mark <= pos <= buf.Length
      reads this, buf
    {
      out + if emit && hasOut then buf[mark..pos] else []
    }

    /** The walk is where w is. Nothing is known once the reader has failed. */
    ghost predicate Agrees(w: Walk)
      reads this, buf
    {
      mark <= pos <= buf.Length && w.at == At() && calls == w.calls && (hasOut && fine ==> Written() == w.out)
    }

    /** Writes the pending run, and starts a new one. */
    method FlushRun()
      requires Valid()
      modifies this`out, this`mark
      ensures Valid() && mark == pos && (!failed ==> Written() == old(Written()))
    {
      if emit && hasOut && pos > mark && !failed { out := out + buf[mark..pos]; }
      mark := pos;
    }

    /** Reads the next bytes into the empty buffer. */
    method Read(ghost empty: nat) returns (n: nat, ended: bool)
      requires Sound(empty) && pos == end == mark && !eof && !failed
      modifies this`chunks, this`base, this`pos, this`end, this`mark, this`eof, this`failed, buf
      ensures mark == pos == 0 && end == n && base == old(base + end)
      ensures ended <==> eof || failed
      ensures ended || n > 0 ==> Sound(0)
      ensures !ended && n == 0 && empty < MAX_EMPTY ==> Sound(empty + 1)
      ensures !ended && n == 0 && empty >= MAX_EMPTY ==>
                !fine && base == |input| && Fits(chunks, buf.Length)
    {
      hide *;
      SoundParts(empty);
      ComesNext(chunks, empty, input, base + end, fine);
      FitsNext(chunks, buf.Length);
      SoonEnough();
      var c := Next(chunks);
      Fill(c.data);
      chunks := After(chunks);
      n := |c.data|;
      base := base + end;
      pos, end, mark := 0, n, 0;
      ended := c.status != More;
      if c.status == End { eof := true; }
      if c.status == Fail { failed := true; }
      if ended || n > 0 { SoundFrom(0); }
      if !ended && n == 0 && empty < MAX_EMPTY { SoundFrom(empty + 1); }
    }

    lemma SoundParts(empty: nat)
      requires Sound(empty)
      ensures Fits(chunks, buf.Length) && base + end <= |input| && 0 < buf.Length
      ensures !eof && !failed ==> Comes(chunks, empty, input, base + end, fine)
    {}

    lemma SoonEnough()
      ensures MAX_EMPTY >= 0
    {}

    lemma SoundFrom(empty: nat)
      requires mark <= pos <= end <= buf.Length && 0 < buf.Length
      requires base + end <= |input| && forall k :: 0 <= k < end ==> buf[k] == input[base + k]
      requires Fits(chunks, buf.Length)
      requires (failed ==> !fine) && (eof ==> fine) && (eof || failed ==> base + end == |input|)
      requires !eof && !failed ==> Comes(chunks, empty, input, base + end, fine)
      ensures Sound(empty)
    {}

    method Fill(data: seq<byte>)
      requires |data| <= buf.Length
      modifies buf
      ensures forall k :: 0 <= k < |data| ==> buf[k] == data[k]
    {
      forall k | 0 <= k < |data| { buf[k] := data[k]; }
    }

    /** Reads until there is something to walk, or there will be nothing. */
    method Refill() returns (ok: bool)
      requires Valid() && pos == end == mark && !eof && !failed
      modifies this`chunks, this`base, this`pos, this`end, this`mark, this`eof, this`failed, buf
      ensures Valid() && At() == old(At()) && mark == pos
      ensures ok <==> pos < end
      ensures !ok ==> pos == end && (failed || eof)
    {
      var empty := 0;
      var n, ended := Read(0);
      while !ended && n == 0
        invariant empty <= MAX_EMPTY && mark == pos == 0 && end == n && base == old(base + pos)
        invariant ended || n > 0 ==> Sound(0)
        invariant ended <==> eof || failed
        invariant !ended && n == 0 && empty < MAX_EMPTY ==> Sound(empty + 1)
        invariant !ended && n == 0 && empty >= MAX_EMPTY ==>
                    !fine && base == |input| && Fits(chunks, buf.Length)
        decreases MAX_EMPTY - empty
      {
        if empty >= MAX_EMPTY {
          failed := true;
          return false;
        }
        empty := empty + 1;
        n, ended := Read(empty);
      }
      ok := n > 0;
    }

    /** Makes an unread byte available, unless the text has ended or the reader has failed. */
    method Ready() returns (ok: bool)
      requires Valid()
      modifies this`chunks, this`base, this`pos, this`end, this`mark, this`eof, this`failed, this`out, buf
      ensures Valid() && At() == old(At()) && (fine ==> Written() == old(Written()))
      ensures ok <==> pos < end
      ensures ok ==> At() < |input| && buf[pos] == input[At()]
      ensures !ok ==> pos == end && (failed || eof) && At() == |input|
    {
      if pos < end {
        Peek();
        return true;
      }
      if eof || failed { return false; }
      FlushRun();
      hide Comes;
      ok := Refill();
      if ok { Peek(); }
    }

    /** The next byte of the buffer is the next of the text. */
    lemma Peek()
      requires Valid() && pos < end
      ensures At() < |input| && buf[pos] == input[At()]
    {}

    /** w with the text up to j consumed: copied when copying is on, and dropped when it is off. */
    ghost function Moved(w: Walk, j: nat, on: bool): (r: Walk)
      requires w.at <= j <= |input|
      ensures r.at == j && r.calls == w.calls
    {
      if on then Copied(input, w, j) else Walk(j, w.out, w.calls)
    }

    lemma MovedOut(w: Walk, j: nat)
      requires w.at <= j <= |input|
      ensures Moved(w, j, true).out == w.out + input[w.at..j]
    {}

    /** Consumes the buffer up to i. */
    method Consume(i: nat, ghost w: Walk)
      requires Valid() && pos <= i <= end && Agrees(w)
      modifies this`pos
      ensures Valid() && pos == i && At() == old(At()) + i - old(pos) && Agrees(Moved(w, At(), emit))
    {
      ghost var from := pos;
      pos := i;
      RunGrows(from, w);
    }

    /** The pending run is the text consumed since it began. */
    lemma RunGrows(from: nat, w: Walk)
      requires Valid() && mark <= from <= pos && w.at == base + from
      ensures emit && hasOut ==> buf[mark..pos] == buf[mark..from] + input[w.at..At()]
      ensures emit ==> Moved(w, At(), emit).out == w.out + input[w.at..At()]
    {
      hide Comes, Moved;
      assert buf[from..pos] == input[w.at..At()];
      assert buf[mark..pos] == buf[mark..from] + buf[from..pos];
      MovedOut(w, At());
    }

    lemma MovedOn(w: Walk, i: nat, j: nat, on: bool)
      requires w.at <= i <= j <= |input|
      ensures Moved(w, i, on).at == i && Moved(Moved(w, i, on), j, on) == Moved(w, j, on)
    {
      assert input[w.at..j] == input[w.at..i] + input[i..j];
    }

    lemma MovedNot(w: Walk)
      requires w.at <= |input|
      ensures forall on :: Moved(w, w.at, on) == w
    {
      assert input[w.at..w.at] == [];
      assert w.out + [] == w.out;
    }

    /** Consumes whitespace, and finds the next byte without consuming it. */
    method SkipSpace(ghost w: Walk) returns (ok: bool, c: byte)
      requires Valid() && Agrees(w)
      modifies this`chunks, this`pos, this`base, this`end, this`mark, this`eof, this`failed, this`out, buf
      ensures Valid() && At() == SkipWs(input, w.at) && Agrees(Moved(w, SkipWs(input, w.at), emit))
      ensures ok ==> pos < end && At() < |input| && c == buf[pos] == input[At()]
      ensures ok <==> At() < |input|
      ensures !ok ==> failed || eof
    {
      hide *;
      AgreesWithin(w);
      MovedNot(w);
      ok, c := true, 0;
      while true
        invariant Valid() && w.at <= At() <= |input| && SkipWs(input, w.at) == SkipWs(input, At())
        invariant Agrees(Moved(w, At(), emit))
        decreases |input| - At()
      {
        ok := ReadyAt(Moved(w, At(), emit));
        if !ok {
          SkipStops(input, At());
          return;
        }
        c := buf[pos];
        if !IsSpace(c) {
          SkipStops(input, At());
          return;
        }
        SkipGoes(input, At());
        MovedOn(w, At(), At() + 1, emit);
        Consume(pos + 1, Moved(w, At(), emit));
      }
    }

    lemma AgreesWithin(w: Walk)
      requires Valid() && Agrees(w)
      ensures w.at == At() <= |input|
    {}

    /** Makes a byte available, wherever the walk is. */
    method ReadyAt(ghost w: Walk) returns (ok: bool)
      requires Valid() && Agrees(w)
      modifies this`chunks, this`pos, this`base, this`end, this`mark, this`eof, this`failed, this`out, buf
      ensures Valid() && Agrees(w) && At() == old(At()) <= |input|
      ensures ok <==> At() < |input|
      ensures ok ==> pos < end <= buf.Length && buf[pos] == input[At()]
      ensures !ok ==> failed || eof
    {
      hide Comes;
      ok := Ready();
    }

    /** Turns copying of what is consumed on or off from here on. */
    method SetEmit(on: bool)
      requires Valid()
      modifies this`out, this`mark, this`emit
      ensures Valid() && emit == on && (fine ==> Written() == old(Written()))
      ensures on != old(emit) ==> mark == pos
    {
      if on == emit { return; }
      FlushRun();
      emit := on;
    }

    /** Writes bytes that are no copy of the text. */
    method Write(p: seq<byte>)
      requires Valid()
      modifies this`out, this`mark
      ensures Valid() && (fine && hasOut ==> Written() == old(Written()) + p)
    {
      if !hasOut || failed { return; }
      FlushRun();
      out := out + p;
    }

    /** The string begun at w.at, as far as it has been consumed: copied, or held for the visitor or as a name. */
    ghost predicate Scanning(w: Walk)
      reads this, buf
    {
      && mark <= pos <= buf.Length && w.at <= At() <= |input| && calls == w.calls
      && match keep
         case KeepScalar =>
           && !emit && !spilled && visit.Some? && scalar == input[w.at..At()] && |scalar| <= MAX_VISIT_STRING
           && (hasOut && fine ==> Written() == w.out)
         case KeepName =>
           && name == input[w.at..At()] && |name| <= MAX_NAME_BYTES && Agrees(Moved(w, At(), emit))
         case KeepNone =>
           && Agrees(Moved(w, At(), emit))
           && (visit.Some? ==> emit && spilled && At() - w.at > MAX_VISIT_STRING)
    }

    lemma RunIs(i: nat, from: nat)
      requires Valid() && pos <= i <= end && from <= At()
      ensures buf[pos..i] == input[At()..base + i]
      ensures input[from..base + i] == input[from..At()] + buf[pos..i]
    {}

    /** The string is too long to visit: what was held goes out, and the rest is copied. */
    method Spill(i: nat, ghost w: Walk)
      requires Valid() && pos <= i <= end && Scanning(w)
      requires keep == KeepScalar && |scalar| + (i - pos) > MAX_VISIT_STRING
      modifies this`pos, this`out, this`mark, this`emit, this`scalar, this`keep, this`spilled
      ensures Valid() && pos == i && Scanning(w) && keep.KeepNone?
    {
      SpillHeld(w);
      hide Comes, Copied, Moved;
      MovedOn(w, At(), base + i, true);
      Consume(i, Moved(w, At(), true));
    }

    /** What was held goes out, and copying goes on from here. */
    method SpillHeld(ghost w: Walk)
      requires Valid() && Scanning(w) && keep == KeepScalar
      modifies this`out, this`mark, this`emit, this`scalar, this`keep, this`spilled
      ensures Valid() && At() == old(At()) && w.at <= At() <= |input| && calls == w.calls
      ensures emit && spilled && keep.KeepNone? && visit.Some? && Agrees(Moved(w, At(), true))
    {
      hide Comes;
      Write(scalar);
      scalar, emit, mark, keep, spilled := [], true, pos, KeepNone, true;
      assert buf[mark..pos] == [];
    }

    /** Consumes the buffer up to i, retaining it as keep says; false for a name too long. */
    method Take(i: nat, ghost w: Walk) returns (ok: bool)
      requires Valid() && pos <= i <= end && Scanning(w)
      modifies this`pos, this`out, this`mark, this`emit, this`scalar, this`name, this`keep, this`spilled
      ensures Valid() && base == old(base)
      ensures ok ==> pos == i && Scanning(w) && StillKeeps(old(keep), old(emit))
      ensures !ok ==>
                && keep == old(keep) == KeepName && emit == old(emit) && pos == old(pos)
                && base + i - w.at > MAX_NAME_BYTES
    {
      hide Comes, Copied, Moved;
      if keep == KeepScalar {
        if |scalar| + (i - pos) > MAX_VISIT_STRING {
          Spill(i, w);
        } else {
          Retain(i, w);
        }
        ok := true;
      } else if keep == KeepName {
        ok := TakeName(i, w);
      } else {
        MovedOn(w, At(), base + i, emit);
        Consume(i, Moved(w, At(), emit));
        ok := true;
      }
    }

    /** Consumes part of a name. */
    method TakeName(i: nat, ghost w: Walk) returns (ok: bool)
      requires Valid() && pos <= i <= end && Scanning(w) && keep == KeepName
      modifies this`pos, this`name
      ensures Valid()
      ensures ok ==> pos == i && Scanning(w)
      ensures !ok ==> pos == old(pos) && base + i - w.at > MAX_NAME_BYTES
    {
      hide Comes, Copied, Moved;
      RunIs(i, w.at);
      if |name| + (i - pos) > MAX_NAME_BYTES { return false; }
      name := name + buf[pos..i];
      MovedOn(w, At(), base + i, emit);
      Consume(i, Moved(w, At(), emit));
      ok := true;
    }

    method Retain(i: nat, ghost w: Walk)
      requires Valid() && pos <= i <= end && Scanning(w)
      requires keep == KeepScalar && |scalar| + (i - pos) <= MAX_VISIT_STRING
      modifies this`pos, this`scalar
      ensures Valid() && pos == i && Scanning(w)
    {
      hide Comes;
      RunIs(i, w.at);
      scalar := scalar + buf[pos..i];
      pos := i;
    }

    /** Makes a byte available in the middle of a string. */
    method ReadyWithin(ghost w: Walk) returns (ok: bool)
      requires Valid() && Scanning(w)
      modifies this`chunks, this`pos, this`base, this`end, this`mark, this`eof, this`failed, this`out, buf
      ensures Valid() && At() == old(At()) && Scanning(w)
      ensures ok ==> pos < end && At() < |input| && buf[pos] == input[At()]
      ensures !ok ==> At() == |input|
    {
      hide Comes, Moved;
      ok := Ready();
    }

    /** What a scan keeps: it may only go from holding a scalar to copying it. */
    ghost predicate StillKeeps(was: Keep, on: bool)
      reads this
    {
      if was.KeepScalar? then keep == was || keep.KeepNone? else keep == was && emit == on
    }

    /** The string cannot be read, or it is a name that is too long. */
    ghost predicate Unreadable(w: Walk, was: Keep)
      requires w.at < |input|
      reads this
    {
      || !fine
      || StrEnd(input, w.at + 1).None?
      || (was.KeepName? && StrEnd(input, w.at + 1).value - w.at > MAX_NAME_BYTES)
    }

    /** Consumes what follows the backslash at b: one character, or u and four hex digits. */
    method ScanEscape(ghost w: Walk, ghost b: nat) returns (ok: bool)
      requires Valid() && Scanning(w) && w.at < b && At() == b + 1 && input[b] == BACKSLASH
      requires StrEnd(input, w.at + 1) == StrEnd(input, b)
      modifies this`chunks, this`pos, this`base, this`end, this`mark, this`eof, this`failed, this`out, this`emit
      modifies this`scalar, this`name, this`keep, this`spilled, buf
      ensures Valid() && StillKeeps(old(keep), old(emit))
      ensures ok ==> b + 2 <= At() && Scanning(w) && StrEnd(input, w.at + 1) == StrEnd(input, At())
      ensures !ok ==> Unreadable(w, old(keep))
    {
      hide Comes, Copied, Moved, Scanning;
      ok := ReadyWithin(w);
      if !ok { return; }
      var c := buf[pos];
      if c != 0x75 {
        if !IsEscape(c) { return false; }
        ok := Take(pos + 1, w);
        return;
      }
      ok := Take(pos + 1, w);
      if !ok { return; }
      for j := 0 to 4
        invariant Valid() && StillKeeps(old(keep), old(emit)) && Scanning(w) && At() == b + 2 + j
        invariant forall k :: b + 2 <= k < b + 2 + j ==> IsHex(input[k])
      {
        ok := ReadyWithin(w);
        if !ok { return; }
        if !IsHex(buf[pos]) {
          assert !HexAt(input, b + 2, 4);
          return false;
        }
        ok := Take(pos + 1, w);
        if !ok { return; }
      }
      assert HexAt(input, b + 2, 4);
    }

    /** Consumes ordinary characters, up to a quote, a backslash, a control character or the buffer's end. */
    method ScanRun(ghost w: Walk) returns (ok: bool)
      requires Valid() && Scanning(w) && w.at < At() && pos < end
      modifies this`pos, this`out, this`mark, this`emit, this`scalar, this`name, this`keep, this`spilled
      ensures Valid() && StillKeeps(old(keep), old(emit)) && At() >= old(At())
      ensures StrEnd(input, old(At())) == StrEnd(input, At())
      ensures ok ==> Scanning(w) && (pos == end ==> At() > old(At()))
      ensures ok && pos < end ==> buf[pos] == QUOTE || buf[pos] == BACKSLASH || buf[pos] < 0x20
      ensures !ok ==> old(keep).KeepName?
      ensures !ok && StrEnd(input, At()).Some? ==> StrEnd(input, At()).value - w.at > MAX_NAME_BYTES
    {
      hide Comes, Copied, Moved, Scanning;
      var i := pos;
      while i < end && buf[i] != QUOTE && buf[i] != BACKSLASH && buf[i] >= 0x20
        invariant pos <= i <= end && StrEnd(input, At()) == StrEnd(input, base + i)
      {
        assert buf[i] == input[base + i];
        i := i + 1;
      }
      ok := Take(i, w);
    }

    /** Consumes a run of characters and what ends it: the closing quote, or an escape. */
    method ScanStep(ghost w: Walk) returns (ok: bool, closed: bool)
      requires Valid() && Scanning(w) && w.at < At() && StrEnd(input, w.at + 1) == StrEnd(input, At())
      modifies this`chunks, this`pos, this`base, this`end, this`mark, this`eof, this`failed, this`out, this`emit
      modifies this`scalar, this`name, this`keep, this`spilled, buf
      ensures Valid() && StillKeeps(old(keep), old(emit))
      ensures ok ==> Scanning(w) && At() > old(At())
      ensures ok ==> StrEnd(input, w.at + 1) == if closed then Some(At()) else StrEnd(input, At())
      ensures !ok ==> Unreadable(w, old(keep))
    {
      hide Comes, Copied, Moved, Scanning;
      closed := false;
      ok := ReadyWithin(w);
      if !ok { return; }
      ok := ScanRun(w);
      if !ok || pos == end { return; }
      Peek();
      var c := buf[pos];
      ghost var b := At();
      if c != QUOTE && c < 0x20 { return false, false; }
      ok := Take(pos + 1, w);
      if !ok { return; }
      if c == QUOTE {
        closed := true;
      } else {
        ok := ScanEscape(w, b);
      }
    }

    /** Consumes the string whose opening quote is the next byte, retaining it as keep says. */
    method ScanString(ghost w: Walk) returns (ok: bool)
      requires Valid() && Scanning(w) && At() == w.at && pos < end && buf[pos] == QUOTE
      modifies this`chunks, this`pos, this`base, this`end, this`mark, this`eof, this`failed, this`out, this`emit
      modifies this`scalar, this`name, this`keep, this`spilled, buf
      ensures Valid() && StillKeeps(old(keep), old(emit)) && w.at < |input|
      ensures ok ==> StrEnd(input, w.at + 1) == Some(At()) && Scanning(w)
      ensures !ok ==> Unreadable(w, old(keep))
    {
      hide Comes, Copied, Moved, Scanning;
      Peek();
      ok := Take(pos + 1, w);
      var closed := false;
      while ok && !closed
        invariant Valid() && StillKeeps(old(keep), old(emit)) && (!ok ==> Unreadable(w, old(keep)))
        invariant ok ==> Scanning(w) && w.at < At() <= |input|
        invariant ok ==> StrEnd(input, w.at + 1) == if closed then Some(At()) else StrEnd(input, At())
        decreases if ok then |input| - At() + 1 else 0
      {
        ScanningWithin(w);
        ok, closed := ScanStep(w);
        if ok { ScanningWithin(w); }
      }
    }

    lemma ScanningWithin(w: Walk)
      requires Scanning(w)
      ensures w.at <= At() <= |input|
    {}

    /** The walk is at w, and copying goes on from there. */
    ghost predicate Walks(w: Walk)
      reads this, buf
    {
      Valid() && Agrees(w) && (hasOut ==> emit)
    }

    /** The scalar since w.at, held back, shown to the visitor and its answer written. */
    method VisitScalar(kind: Kind, ghost w: Walk) returns (ok: bool)
      requires Valid() && visit.Some? && w.at <= At() <= |input| && calls == w.calls
      requires scalar == input[w.at..At()] && !emit && (hasOut && fine ==> Written() == w.out)
      modifies this`out, this`mark, this`emit, this`calls
      ensures ok ==> Walks(Visited(input, w, At(), path, kind, visit))
      ensures Valid() && At() == old(At()) && (!ok ==> !fine)
    {
      hide Comes;
      calls := calls + [Call(path, kind, scalar)];
      var rep := visit.value(calls);
      Write(if rep.Some? then rep.value else scalar);
      SetEmit(true);
      ok := !failed;
    }

    /** Consumes a string value: shown to the visitor, or copied where it is too long or there is none. */
    method StringValue(ghost w: Walk) returns (ok: bool)
      requires Walks(w) && pos < end && buf[pos] == QUOTE
      modifies this`chunks, this`pos, this`base, this`end, this`mark, this`eof, this`failed, this`out, this`emit
      modifies this`scalar, this`name, this`keep, this`spilled, this`calls, buf
      ensures Valid() && w.at < |input| && input[w.at] == QUOTE
      ensures ok ==> TextRun(input, w, path, visit).Some? && Walks(TextRun(input, w, path, visit).value)
      ensures !ok ==> !fine || TextRun(input, w, path, visit).None?
    {
      hide Comes, Copied, Moved, TextRun;
      Peek();
      MovedNot(w);
      if visit.Some? {
        ok := ShownString(w);
        return;
      }
      keep := KeepNone;
      ok := ScanString(w);
      if ok {
        MovedText(w);
        MovedEither(w);
      } else {
        TextNeeds(w);
      }
    }

    /** Consumes a string value with a visitor to show it to. */
    method ShownString(ghost w: Walk) returns (ok: bool)
      requires Walks(w) && pos < end && buf[pos] == QUOTE && visit.Some? && w.at < |input| && input[w.at] == QUOTE
      modifies this`chunks, this`pos, this`base, this`end, this`mark, this`eof, this`failed, this`out, this`emit
      modifies this`scalar, this`name, this`keep, this`spilled, this`calls, buf
      ensures Valid()
      ensures ok ==> TextRun(input, w, path, visit).Some? && Walks(TextRun(input, w, path, visit).value)
      ensures !ok ==> !fine || TextRun(input, w, path, visit).None?
    {
      hide *;
      HoldText(w);
      ghost var on := emit;
      ok := ScanString(w);
      if !ok {
        TextNeeds(w);
        Missed(w);
        return;
      }
      MovedText(w);
      StillHeld(on);
      Scanned(w);
      if spilled {
        ok := TellSpilled(w);
      } else {
        ok := VisitScalar(Text, w);
      }
    }

    lemma Missed(w: Walk)
      requires w.at < |input| && Unreadable(w, KeepScalar)
      ensures !fine || StrEnd(input, w.at + 1).None?
    {}

    lemma StillHeld(on: bool)
      requires StillKeeps(KeepScalar, on)
      ensures keep.KeepScalar? || keep.KeepNone?
    {}

    /** Starts to hold a string. */
    method HoldText(ghost w: Walk)
      requires Walks(w) && visit.Some?
      modifies this`out, this`mark, this`emit, this`scalar, this`keep, this`spilled
      ensures Valid() && Scanning(w) && keep == KeepScalar && At() == w.at && end == old(end) && pos == old(pos)
    {
      hide Comes;
      SetEmit(false);
      scalar, keep, spilled := [], KeepScalar, false;
      assert input[w.at..At()] == [];
    }

    /** What a scan with a visitor leaves: the whole string held, or all of it copied. */
    lemma Scanned(w: Walk)
      requires Valid() && Scanning(w) && visit.Some? && (keep.KeepScalar? || keep.KeepNone?)
      ensures w.at <= At() <= |input| && calls == w.calls && (spilled <==> At() - w.at > MAX_VISIT_STRING)
      ensures spilled ==> Walks(Moved(w, At(), true))
      ensures !spilled ==> !emit && scalar == input[w.at..At()] && (hasOut && fine ==> Written() == w.out)
    {
      hide Comes;
    }

    /** Tells the visitor of a string it was not shown. */
    method TellSpilled(ghost w: Walk) returns (ok: bool)
      requires w.at <= At() <= |input| && calls == w.calls && Walks(Moved(w, At(), true))
      modifies this`calls
      ensures Valid() && At() == old(At()) && (!ok ==> !fine)
      ensures Walks(Moved(w, At(), true).(calls := w.calls + [Call(path, LongString, [])]))
    {
      hide Comes;
      calls := calls + [Call(path, LongString, [])];
      ok := !failed;
    }

    lemma TextNeeds(w: Walk)
      requires w.at < |input| && input[w.at] == QUOTE
      ensures StrEnd(input, w.at + 1).None? ==> TextRun(input, w, path, visit).None?
    {}

    /** Without output it makes no difference whether copying is on. */
    lemma MovedEither(w: Walk)
      requires w.at <= At() <= |input| && mark <= pos <= buf.Length
      ensures Moved(w, At(), true).calls == w.calls && Moved(w, At(), true).at == At()
      ensures Agrees(Moved(w, At(), emit)) && (hasOut ==> emit) ==> Agrees(Moved(w, At(), true))
    {}

    /** A string that is not shown to the visitor is copied. */
    lemma MovedText(w: Walk)
      requires w.at < |input| && input[w.at] == QUOTE && StrEnd(input, w.at + 1).Some?
      ensures var e := StrEnd(input, w.at + 1).value;
              && (visit.None? ==> TextRun(input, w, path, visit) == Some(Moved(w, e, true)))
              && (visit.Some? && e - w.at > MAX_VISIT_STRING ==>
                    (TextRun(input, w, path, visit)
                     == Some(Moved(w, e, true).(calls := w.calls + [Call(path, LongString, [])]))))
              && (visit.Some? && e - w.at <= MAX_VISIT_STRING ==>
                    TextRun(input, w, path, visit) == Some(Visited(input, w, e, path, Text, visit)))
    {}

    lemma WalksWithin(w: Walk)
      requires Walks(w)
      ensures Valid() && w.at == At() <= |input|
    {}

    /** Skips whitespace while copying is on. */
    method SkipTo(ghost w: Walk) returns (ok: bool, c: byte)
      requires Walks(w)
      modifies this`chunks, this`pos, this`base, this`end, this`mark, this`eof, this`failed, this`out, buf
      ensures w.at <= |input| && At() == SkipWs(input, w.at) && Walks(Moved(w, SkipWs(input, w.at), true))
      ensures ok <==> At() < |input|
      ensures ok ==> pos < end && pos < buf.Length && c == buf[pos] == input[At()]
      ensures !ok ==> failed || eof
    {
      hide Comes, Copied, Moved;
      WalksWithin(w);
      ok, c := SkipSpace(w);
      MovedEither(w);
    }

    /** Consumes one byte while copying is on. */
    method Step(ghost w: Walk)
      requires Walks(w) && pos < end
      modifies this`pos
      ensures w.at < |input| && At() == w.at + 1 && Walks(Moved(w, w.at + 1, true))
    {
      hide Comes, Copied, Moved;
      AtStart(w);
      Consume(pos + 1, w);
      MovedEither(w);
    }

    /** A name and its colon, or what is missing from them. */
    lemma NameIs(w: Walk)
      requires w.at <= |input|
      ensures var i := SkipWs(input, w.at);
              if i == |input| || input[i] != QUOTE || StrEnd(input, i + 1).None?
                 || StrEnd(input, i + 1).value - i > MAX_NAME_BYTES then NameRun(input, w).None?
              else
                var e := StrEnd(input, i + 1).value;
                var k := SkipWs(input, e);
                if k == |input| || input[k] != COLON then NameRun(input, w).None?
                else NameRun(input, w) == Some((input[i..e], Moved(w, k + 1, true)))
    {}

    /** A scalar from w.at on, held for the visitor if there is one, and copied if there is none. */
    ghost predicate Holding(w: Walk)
      reads this, buf
    {
      && Valid() && w.at <= At() <= |input| && calls == w.calls
      && (if visit.Some? then !emit && scalar == input[w.at..At()] && (hasOut && fine ==> Written() == w.out)
          else Agrees(Moved(w, At(), emit)) && (hasOut ==> emit))
    }

    /** Starts to hold a scalar. */
    method Hold(ghost w: Walk)
      requires Walks(w)
      modifies this`out, this`mark, this`emit, this`scalar
      ensures Holding(w) && At() == old(At()) && (old(pos < end) ==> pos < end)
    {
      hide Comes, Copied, Moved;
      MovedNot(w);
      if visit.Some? {
        SetEmit(false);
        scalar := [];
        assert input[w.at..At()] == [];
      }
    }

    /** Makes a byte available in the middle of a scalar. */
    method ReadyHeld(ghost w: Walk) returns (ok: bool)
      requires Holding(w)
      modifies this`chunks, this`pos, this`base, this`end, this`mark, this`eof, this`failed, this`out, buf
      ensures Holding(w) && At() == old(At())
      ensures ok ==> pos < end && At() < |input| && buf[pos] == input[At()]
      ensures !ok ==> At() == |input| && (!failed ==> eof)
    {
      hide Comes, Moved;
      ok := Ready();
    }

    /** Consumes one byte of the scalar. */
    method HoldByte(ghost w: Walk)
      requires Holding(w) && pos < end
      modifies this`pos, this`scalar
      ensures Holding(w) && At() == old(At()) + 1
    {
      hide Comes, Copied, Moved;
      Peek();
      if visit.Some? {
        assert input[w.at..At() + 1] == input[w.at..At()] + [buf[pos]];
        scalar := scalar + [buf[pos]];
        pos := pos + 1;
      } else {
        MovedOn(w, At(), At() + 1, emit);
        Consume(pos + 1, Moved(w, At(), emit));
      }
    }

    /** Shows the scalar to the visitor, if there is one. */
    method Release(kind: Kind, ghost w: Walk) returns (ok: bool)
      requires Holding(w)
      modifies this`out, this`mark, this`emit, this`calls
      ensures Valid() && At() == old(At())
      ensures ok ==> Walks(Visited(input, w, At(), path, kind, visit))
      ensures !ok ==> !fine
    {
      if visit.Some? {
        hide Comes, Visited, Moved;
        ok := VisitScalar(kind, w);
      } else {
        MovedEither(w);
        ok := true;
      }
    }

    /** Consumes a number, as far as the grammar takes it. */
    method ScanNumber(ghost w: Walk) returns (ok: bool)
      requires Walks(w) && pos < end
      modifies this`chunks, this`pos, this`base, this`end, this`mark, this`eof, this`failed, this`out, this`emit
      modifies this`scalar, this`calls, buf
      ensures Valid() && w.at < |input|
      ensures ok ==> NumberRun(input, w, path, visit).Some? && Walks(NumberRun(input, w, path, visit).value)
      ensures !ok ==> !fine || NumberRun(input, w, path, visit).None?
    {
      hide Comes, Moved, Visited, Holding, Walks, Agrees;
      AtStart(w);
      Hold(w);
      var state, n := NumStart, 0;
      while true
        invariant Holding(w) && At() == w.at + n && n <= MAX_VISIT_STRING
        invariant w.at + n <= |input| && NumEnd(input, w.at, NumStart) == NumEnd(input, w.at + n, state)
        decreases MAX_VISIT_STRING - n
      {
        ok := ReadyHeld(w);
        HeldFine(w);
        if !ok {
          if failed { return; }
          break;
        }
        var next := NumStep(state, buf[pos]);
        if next.None? { break; }
        n := n + 1;
        if n > MAX_VISIT_STRING { return false; }
        HoldByte(w);
        state := next.value;
      }
      HeldFine(w);
      if !NumComplete(state) { return false; }
      ok := Release(Number, w);
    }

    lemma AtStart(w: Walk)
      requires Walks(w) && pos < end
      ensures w.at == At() < |input| && buf[pos] == input[w.at]
    {
      Peek();
    }

    lemma HeldFine(w: Walk)
      requires Holding(w)
      ensures Valid() && (failed ==> !fine)
    {}

    /** Consumes true, false or null. */
    method ScanLiteral(lit: seq<byte>, kind: Kind, ghost w: Walk) returns (ok: bool)
      requires Walks(w) && pos < end && lit != []
      modifies this`chunks, this`pos, this`base, this`end, this`mark, this`eof, this`failed, this`out, this`emit
      modifies this`scalar, this`calls, buf
      ensures Valid() && w.at < |input|
      ensures ok ==> LiteralRun(input, w, lit, path, kind, visit).Some?
                     && Walks(LiteralRun(input, w, lit, path, kind, visit).value)
      ensures !ok ==> !fine || LiteralRun(input, w, lit, path, kind, visit).None?
    {
      hide Comes, Moved, Visited, Holding, Walks, Agrees;
      AtStart(w);
      Hold(w);
      for i := 0 to |lit|
        invariant Holding(w) && At() == w.at + i && w.at + i <= |input|
        invariant lit[..i] == input[w.at..w.at + i]
      {
        ok := ReadyHeld(w);
        HeldFine(w);
        if !ok || buf[pos] != lit[i] {
          NotPrefix(lit, w.at, i);
          return false;
        }
        assert lit[..i + 1] == lit[..i] + [lit[i]];
        assert input[w.at..w.at + i + 1] == input[w.at..w.at + i] + [input[w.at + i]];
        HoldByte(w);
      }
      assert lit[..|lit|] == lit;
      assert input[w.at..][..|lit|] == lit;
      ok := Release(kind, w);
    }

    lemma NotPrefix(lit: seq<byte>, from: nat, i: nat)
      requires i < |lit| && from + i <= |input| && (from + i < |input| ==> input[from + i] != lit[i])
      ensures !(lit <= input[from..])
    {
      if from + i < |input| { assert input[from..][i] == input[from + i]; }
    }

    /** Consumes a scalar, whatever it is. */
    method ScanScalar(ghost w: Walk) returns (ok: bool)
      requires Walks(w) && pos < end
      modifies this`chunks, this`pos, this`base, this`end, this`mark, this`eof, this`failed, this`out, this`emit
      modifies this`scalar, this`name, this`keep, this`spilled, this`calls, buf
      ensures Valid() && w.at < |input|
      ensures ok ==> ScalarRun(input, w, path, visit).Some? && Walks(ScalarRun(input, w, path, visit).value)
      ensures !ok ==> !fine || ScalarRun(input, w, path, visit).None?
    {
      AtStart(w);
      hide Valid, Walks, TextRun, NumberRun, LiteralRun;
      var c := buf[pos];
      if c == QUOTE {
        ok := StringValue(w);
      } else if c == 0x74 {
        ok := ScanLiteral(TRUE_TEXT, Bool, w);
      } else if c == 0x66 {
        ok := ScanLiteral(FALSE_TEXT, Bool, w);
      } else if c == 0x6E {
        ok := ScanLiteral(NULL_TEXT, Null, w);
      } else if c == MINUS || IsDigit(c) {
        ok := ScanNumber(w);
      } else {
        ok := false;
      }
    }

    /** How names and scalars are read. */
    ghost function Settings(): (r: Setup)
      reads this`visit
      ensures r.visit == visit
    {
      Setup(visit, decode)
    }

    /** Consumes a member name, and returns it as the visitor is to see it. */
    method ReadName(decoded: bool, ghost w: Walk) returns (ok: bool, text: seq<byte>)
      requires Walks(w) && pos < end && buf[pos] == QUOTE
      modifies this`chunks, this`pos, this`base, this`end, this`mark, this`eof, this`failed, this`out, this`emit
      modifies this`scalar, this`name, this`keep, this`spilled, buf
      ensures Valid() && w.at < |input|
      ensures ok ==> StrEnd(input, w.at + 1) == Some(At()) && At() - w.at <= MAX_NAME_BYTES
                     && Walks(Moved(w, At(), true)) && name == input[w.at..At()]
                     && text == if decoded then Decoded(input[w.at..At()], decode) else []
      ensures !ok ==> !fine || StrEnd(input, w.at + 1).None? || StrEnd(input, w.at + 1).value - w.at > MAX_NAME_BYTES
    {
      hide Comes, Copied, Moved;
      AtStart(w);
      MovedNot(w);
      name, keep, text := [], KeepName, [];
      assert name == input[w.at..At()];
      ok := ScanString(w);
      if !ok { return; }
      MovedEither(w);
      if decoded {
        text := if BACKSLASH in name then decode(name) else name[1..|name| - 1];
      }
    }

    /** Consumes a member's name and colon, and records the name in the innermost path element. */
    method Member(ghost w: Walk) returns (ok: bool)
      requires Walks(w) && path != []
      modifies this`chunks, this`pos, this`base, this`end, this`mark, this`eof, this`failed, this`out, this`emit
      modifies this`scalar, this`name, this`keep, this`spilled, this`path, buf
      ensures Valid() && w.at <= |input|
      ensures ok ==> NameRun(input, w).Some? && Walks(NameRun(input, w).value.1)
                     && path == NamedPath(old(path), NameRun(input, w).value.0, Settings())
      ensures !ok ==> path == old(path) && (!fine || NameRun(input, w).None?)
    {
      hide *;
      WalksWithin(w);
      NameIs(w);
      var c, text;
      ok, c := SkipTo(w);
      ghost var i := At();
      WalksWithin(Moved(w, i, true));
      if !ok || c != QUOTE { return false; }
      ok, text := ReadName(visit.Some?, Moved(w, i, true));
      if !ok { return; }
      ghost var e := At();
      MovedOn(w, i, e, true);
      ok, c := SkipTo(Moved(w, e, true));
      ghost var k := At();
      WalksWithin(Moved(Moved(w, e, true), k, true));
      if !ok || c != COLON { return false; }
      MovedOn(w, e, k, true);
      Step(Moved(w, k, true));
      MovedOn(w, k, k + 1, true);
      Named(path, input[i..e], text);
      SetTop(Key(text), Moved(w, k + 1, true));
      WalksWithin(Moved(w, k + 1, true));
    }

    lemma Named(p: seq<PathElem>, raw: seq<byte>, text: seq<byte>)
      requires p != [] && text == if visit.Some? then Decoded(raw, decode) else []
      ensures p[|p| - 1 := Key(text)] == NamedPath(p, raw, Settings())
    {}

    /** Puts the innermost path element. */
    method SetTop(e: PathElem, ghost w: Walk)
      requires Walks(w) && path != []
      modifies this`path
      ensures Walks(w) && path == old(path)[|old(path)| - 1 := e]
    {
      hide Comes;
      path := path[|path| - 1 := e];
    }

    /** What is left of the value whose containers from floor on are open. */
    ghost function Left(w: Walk, floor: nat, ended: bool): Option<Walk>
      requires w.at <= |input| && floor <= |path|
      reads this`path, this`visit
    {
      ValueRun(input, w, path, floor, ended, Settings())
    }

    /** Consumes the start of a value: a scalar, or an opening bracket and the first name or what closes it. */
    method Start(floor: nat, ghost w: Walk) returns (ok: bool, ended: bool, ghost v: Walk)
      requires Walks(w) && floor <= |path|
      modifies this`chunks, this`pos, this`base, this`end, this`mark, this`eof, this`failed, this`out, this`emit
      modifies this`scalar, this`name, this`keep, this`spilled, this`calls, this`path, buf
      ensures Valid() && w.at <= |input|
      ensures ok ==> Walks(v) && w.at < v.at <= |input| && floor <= |path| && path[..floor] == old(path)[..floor]
                     && Left(v, floor, ended) == old(Left(w, floor, false))
      ensures !ok ==> !fine || old(Left(w, floor, false)).None?
    {
      hide *;
      WalksWithin(w);
      StartIs(input, w, path, floor, Settings());
      ghost var was := path;
      LeftIs(w, floor, false);
      var c;
      ok, c := SkipTo(w);
      ghost var u := Moved(w, At(), true);
      MovedIs(w, At());
      WalksWithin(u);
      ended, v := true, u;
      if !ok { return; }
      if c == OPEN_OBJECT || c == OPEN_ARRAY {
        if |path| - floor >= MAX_DEPTH {
          OpenIs(input, u, path, floor, c == OPEN_ARRAY, Settings());
          return false, true, u;
        }
        ok, ended, v := Open(c == OPEN_ARRAY, floor, u);
      } else {
        ScalarIs(input, u, path, floor, Settings());
        ok := ScanScalar(u);
        if ok {
          v := ScalarRun(input, u, path, visit).value;
          WalksWithin(v);
        }
      }
      if ok { LeftIs(v, floor, ended); }
    }

    lemma LeftIs(w: Walk, floor: nat, ended: bool)
      requires w.at <= |input| && floor <= |path|
      ensures Left(w, floor, ended) == ValueRun(input, w, path, floor, ended, Settings())
    {}

    lemma MovedIs(w: Walk, j: nat)
      requires w.at <= j <= |input|
      ensures Moved(w, j, true) == Copied(input, w, j)
    {}

    /** Consumes an opening bracket, and what closes it again or the first member's name. */
    method Open(isArray: bool, floor: nat, ghost w: Walk) returns (ok: bool, ended: bool, ghost v: Walk)
      requires Walks(w) && pos < end && floor <= |path| && |path| - floor < MAX_DEPTH
      requires w.at < |input| && input[w.at] == if isArray then OPEN_ARRAY else OPEN_OBJECT
      modifies this`chunks, this`pos, this`base, this`end, this`mark, this`eof, this`failed, this`out, this`emit
      modifies this`scalar, this`name, this`keep, this`spilled, this`calls, this`path, buf
      ensures Valid()
      ensures ok ==> Walks(v) && w.at < v.at <= |input| && floor <= |path| && path[..floor] == old(path)[..floor]
                     && ValueRun(input, v, path, floor, ended, Settings())
                     == StartRun(input, w, old(path), floor, Settings())
      ensures !ok ==> !fine || StartRun(input, w, old(path), floor, Settings()).None?
    {
      hide *;
      OpenIs(input, w, path, floor, isArray, Settings());
      Step(w);
      WalksWithin(Moved(w, w.at + 1, true));
      Push(if isArray then Index(0) else Key([]), Moved(w, w.at + 1, true));
      var c;
      ok, c := SkipTo(Moved(w, w.at + 1, true));
      ghost var i := At();
      MovedOn(w, w.at + 1, i, true);
      MovedIs(w, i);
      v, ended := Moved(w, i, true), true;
      WalksWithin(v);
      if !ok { return; }
      if c == (if isArray then CLOSE_ARRAY else CLOSE_OBJECT) {
        Step(v);
        MovedIs(v, i + 1);
        v := Moved(v, i + 1, true);
        Pop(v);
        assert path == old(path);
        WalksWithin(v);
        return;
      }
      ended := false;
      assert path[..floor] == old(path)[..floor];
      if !isArray {
        ok := Member(v);
        if ok {
          v := NameRun(input, v).value.1;
          WalksWithin(v);
          SameBelow(path, old(path), floor);
        }
      }
    }

    lemma SameBelow(p: seq<PathElem>, q: seq<PathElem>, floor: nat)
      requires floor <= |q| < |p| && p[..|q|] == q
      ensures p[..floor] == q[..floor]
    {
      assert p[..floor] == p[..|q|][..floor];
    }

    method Push(e: PathElem, ghost w: Walk)
      requires Walks(w)
      modifies this`path
      ensures Walks(w) && path == old(path) + [e]
    {
      hide Comes;
      path := path + [e];
    }

    method Pop(ghost w: Walk)
      requires Walks(w) && path != []
      modifies this`path
      ensures Walks(w) && path == old(path)[..|old(path)| - 1]
    {
      hide Comes;
      path := path[..|path| - 1];
    }

    /** Consumes what follows a value inside a container: a comma and the next name, or the closing bracket. */
    method Follow(floor: nat, ghost w: Walk) returns (ok: bool, ended: bool, ghost v: Walk)
      requires Walks(w) && floor < |path|
      modifies this`chunks, this`pos, this`base, this`end, this`mark, this`eof, this`failed, this`out, this`emit
      modifies this`scalar, this`name, this`keep, this`spilled, this`calls, this`path, buf
      ensures Valid() && w.at <= |input|
      ensures ok ==> Walks(v) && w.at < v.at <= |input| && floor <= |path| && path[..floor] == old(path)[..floor]
                     && Left(v, floor, ended) == old(Left(w, floor, true))
      ensures !ok ==> !fine || old(Left(w, floor, true)).None?
    {
      hide *;
      WalksWithin(w);
      NextIs(input, w, path, floor, Settings());
      LeftIs(w, floor, true);
      var c;
      ok, c := SkipTo(w);
      ghost var u := Moved(w, At(), true);
      MovedIs(w, At());
      WalksWithin(u);
      ended, v := false, u;
      if !ok { return; }
      FollowIs(input, u, path, floor, Settings());
      MovedIs(u, u.at + 1);
      var top := path[|path| - 1];
      if c == COMMA {
        Step(u);
        v := Moved(u, u.at + 1, true);
        if top.Index? {
          SetTop(Index(top.i + 1), v);
        } else {
          ok := Member(v);
          if ok { v := NameRun(input, v).value.1; }
        }
        assert ok ==> path[..|path| - 1] == old(path)[..|old(path)| - 1];
        if ok { SameBelow(path, old(path)[..|old(path)| - 1], floor); }
      } else if c == (if top.Index? then CLOSE_ARRAY else CLOSE_OBJECT) {
        Step(u);
        v := Moved(u, u.at + 1, true);
        Pop(v);
        ended := true;
        SameBelow(old(path), path, floor);
      } else {
        ok := false;
      }
      if ok {
        WalksWithin(v);
        LeftIs(v, floor, ended);
      }
    }

    /** Consumes exactly one value, and leaves the path as it found it. */
    method Value(ghost w: Walk) returns (ok: bool, ghost v: Walk)
      requires Walks(w)
      modifies this`chunks, this`pos, this`base, this`end, this`mark, this`eof, this`failed, this`out, this`emit
      modifies this`scalar, this`name, this`keep, this`spilled, this`calls, this`path, buf
      ensures Valid() && w.at <= |input| && (ok ==> path == old(path) && Walks(v))
      ensures ok ==> ValueRun(input, w, old(path), |old(path)|, false, Settings()) == Some(v)
      ensures !ok ==> !fine || ValueRun(input, w, old(path), |old(path)|, false, Settings()).None?
    {
      hide *;
      var floor := |path|;
      var ended := false;
      v := w;
      WalksWithin(w);
      LeftIs(w, floor, false);
      while !ended || |path| > floor
        invariant Walks(v) && w.at <= v.at <= |input| && floor <= |path| && path[..floor] == old(path)
        invariant Left(v, floor, ended) == old(Left(w, floor, false))
        decreases |input| - v.at
      {
        if ended {
          ok, ended, v := Follow(floor, v);
        } else {
          ok, ended, v := Start(floor, v);
        }
        if !ok { return; }
      }
      ok := true;
      assert path == path[..floor];
      LeftIs(v, floor, true);
      EndIs(input, v, path, Settings());
      WalksWithin(v);
    }

    /** Consumes trailing whitespace, and requires the text to end there. */
    method Finish(ghost w: Walk) returns (ok: bool)
      requires Valid() && Agrees(w)
      modifies this`chunks, this`pos, this`base, this`end, this`mark, this`eof, this`failed, this`out, buf
      ensures Valid() && w.at <= |input|
      ensures ok ==> fine && SkipWs(input, w.at) == |input| && Agrees(Moved(w, |input|, emit))
      ensures !ok ==> !fine || SkipWs(input, w.at) < |input|
    {
      hide *;
      AgreesWithin(w);
      var more, c := SkipSpace(w);
      HowEnded();
      ok := !more && !failed;
    }

    lemma HowEnded()
      requires Valid()
      ensures (eof ==> fine) && (failed ==> !fine)
    {}

    /** Starts to copy. */
    method Begin()
      requires Valid() && At() == 0 && Written() == [] && calls == []
      modifies this`out, this`mark, this`emit
      ensures Walks(Walk(0, [], []))
    {
      hide Comes;
      SetEmit(true);
    }

    lemma Stated(visit: Option<Visitor>, decode: seq<byte> -> seq<byte>)
      requires this.visit == visit && this.decode == decode
      ensures Settings() == Setup(visit, decode)
    {}

    lemma AllRead(w: Walk)
      requires Valid() && Agrees(w) && fine
      ensures w.at == At() <= |input| && !failed
    {}

    lemma WalksParts(w: Walk)
      requires Walks(w)
      ensures Valid() && Agrees(w) && (hasOut ==> emit) && w.at == At() <= |input|
    {}

    /** Without output it makes no difference whether the end was copied. */
    lemma EndCopied(w: Walk)
      requires w.at <= |input| && Agrees(Moved(w, |input|, emit)) && (hasOut ==> emit)
      ensures Agrees(Copied(input, w, |input|))
    {}

    lemma WholeIs(v: Option<Walk>, prefix: seq<PathElem>, u: Setup)
      requires v == ValueRun(input, Walk(0, [], []), prefix, |prefix|, false, u)
      ensures v.None? ==> RewriteRun(input, prefix, u).None?
      ensures v.Some? && SkipWs(input, v.value.at) < |input| ==> RewriteRun(input, prefix, u).None?
      ensures v.Some? && SkipWs(input, v.value.at) == |input| ==>
                RewriteRun(input, prefix, u) == Some(Copied(input, v.value, |input|))
    {
      hide ValueRun;
    }

    /** The one value of the text, and nothing but whitespace around it. */
    method Whole() returns (ok: bool, ghost r: Walk)
      requires Valid() && At() == 0 && Written() == [] && calls == []
      modifies this`chunks, this`pos, this`base, this`end, this`mark, this`eof, this`failed, this`out, this`emit
      modifies this`scalar, this`name, this`keep, this`spilled, this`calls, this`path, buf
      ensures ok <==> fine && RewriteRun(input, old(path), old(Settings())).Some?
      ensures ok ==>
                && RewriteRun(input, old(path), old(Settings())) == Some(r) && calls == r.calls
                && (hasOut ==> out == r.out)
    {
      hide *;
      ghost var start := Walk(0, [], []);
      ghost var u := Settings();
      ghost var v;
      Begin();
      r := start;
      AllFit();
      WholeIs(ValueRun(input, start, path, |path|, false, u), path, u);
      ok, v := Value(start);
      if !ok { return; }
      WalksParts(v);
      ok := Finish(v);
      if !ok { return; }
      r := Copied(input, v, |input|);
      EndCopied(v);
      AllRead(r);
      ok := Close(r);
    }

    lemma AllFit()
      ensures 0 <= |input|
    {}

    /** Writes what is pending. */
    method Close(ghost w: Walk) returns (ok: bool)
      requires Valid() && Agrees(w)
      modifies this`out, this`mark
      ensures ok <==> !failed
      ensures hasOut && fine ==> out == w.out
      ensures calls == w.calls
    {
      hide Comes;
      FlushRun();
      assert buf[mark..pos] == [];
      ok := !failed;
    }

    // The items of an array, without what is around them.

    /** The walk is where w is, and copying, if there is output, is off. */
    ghost predicate Idle(w: Walk)
      reads this, buf
    {
      Valid() && Agrees(w) && (hasOut ==> !emit)
    }

    lemma IdleWithin(w: Walk)
      requires Idle(w)
      ensures Valid() && w.at == At() <= |input|
    {}

    lemma MovedOff(w: Walk, j: nat)
      requires w.at <= j <= |input| && Agrees(Moved(w, j, emit)) && (hasOut ==> !emit)
      ensures Agrees(Dropped(w, j))
    {}

    /** Skips whitespace while copying is off. */
    method SkipIdle(ghost w: Walk) returns (ok: bool, c: byte)
      requires Idle(w)
      modifies this`chunks, this`pos, this`base, this`end, this`mark, this`eof, this`failed, this`out, buf
      ensures w.at <= |input| && At() == SkipWs(input, w.at) && Idle(Dropped(w, SkipWs(input, w.at)))
      ensures ok <==> At() < |input|
      ensures ok ==> pos < end && c == input[At()]
    {
      hide Comes, Moved;
      AgreesWithin(w);
      ok, c := SkipSpace(w);
      MovedOff(w, At());
    }

    /** Consumes one byte while copying is off. */
    method StepIdle(ghost w: Walk)
      requires Idle(w) && pos < end
      modifies this`pos
      ensures w.at < |input| && Idle(Dropped(w, w.at + 1)) && At() == w.at + 1
    {
      hide Comes, Moved;
      Peek();
      Consume(pos + 1, w);
      MovedOff(w, w.at + 1);
    }

    /** Turns copying on for a value, or off after it. */
    method Switch(on: bool, ghost w: Walk)
      requires Walks(w) || Idle(w)
      modifies this`out, this`mark, this`emit
      ensures if on then Walks(w) else Idle(w)
    {
      hide Comes;
      SetEmit(on);
    }

    /** Writes the comma that separates an item from those before it, if there are any. */
    method Separate(n: nat, ghost w: Walk)
      requires Idle(w)
      modifies this`out, this`mark
      ensures Idle(Walk(w.at, w.out + if n > 0 then [COMMA] else [], w.calls))
    {
      hide Comes;
      if n > 0 { Write([COMMA]); } else { assert w.out + [] == w.out; }
    }

    /** Consumes one item, the n before it written, and what follows it: a comma, or the closing bracket. */
    method Item(n: nat, ghost base: seq<PathElem>, ghost k: nat, ghost w: Walk)
      returns (ok: bool, more: bool, ghost v: Walk)
      requires Idle(w) && path == base + [Index(k)]
      modifies this`chunks, this`pos, this`base, this`end, this`mark, this`eof, this`failed, this`out, this`emit
      modifies this`scalar, this`name, this`keep, this`spilled, this`calls, this`path, buf
      ensures Valid() && w.at <= |input|
      ensures ok ==> Idle(v) && w.at < v.at <= |input| && path == old(path)
      ensures ok && more ==>
                SpliceRun(input, w, base, k, n, Settings()) == SpliceRun(input, v, base, k + 1, n + 1, Settings())
      ensures ok && !more ==> SpliceRun(input, w, base, k, n, Settings()) == Some((v, n + 1))
      ensures !ok ==> !fine || SpliceRun(input, w, base, k, n, Settings()).None?
    {
      hide *;
      IdleWithin(w);
      SettingsAre();
      SpliceIs(input, w, base, k, n, Settings());
      Separate(n, w);
      v := Walk(w.at, w.out + if n > 0 then [COMMA] else [], w.calls);
      more := true;
      var c;
      ok, c := SkipIdle(v);
      DroppedIs(v, At());
      v := Dropped(v, At());
      IdleWithin(v);
      if !ok { return; }
      Switch(true, v);
      ok, v := Value(v);
      SettingsAre();
      if !ok { return; }
      WalksWithin(v);
      Switch(false, v);
      ok, c := SkipIdle(v);
      DroppedIs(v, At());
      ghost var u := Dropped(v, At());
      IdleWithin(u);
      if !ok { return; }
      if c != CLOSE_ARRAY && c != COMMA { return false, true, v; }
      StepIdle(u);
      DroppedIs(v, u.at + 1);
      DroppedIs(u, u.at + 1);
      v, more := Dropped(v, u.at + 1), c == COMMA;
      IdleWithin(v);
      SettingsAre();
    }

    lemma SettingsAre()
      ensures Settings() == Setup(visit, decode)
    {}

    /** Numbers the next item. */
    method NextIndex(ghost w: Walk)
      requires Idle(w) && path != [] && path[|path| - 1].Index?
      modifies this`path
      ensures Idle(w) && path == old(path)[..|old(path)| - 1] + [Index(old(path)[|old(path)| - 1].i + 1)]
    {
      hide Comes;
      path := path[|path| - 1 := Index(path[|path| - 1].i + 1)];
    }

    method Inside(k: nat, ghost w: Walk)
      requires Idle(w)
      modifies this`path
      ensures Idle(w) && path == old(path) + [Index(k)]
    {
      hide Comes;
      path := path + [Index(k)];
    }

    method Outside(ghost base: seq<PathElem>, ghost w: Walk)
      requires Idle(w) && path != [] && path[..|path| - 1] == base
      modifies this`path
      ensures Idle(w) && path == base
    {
      hide Comes;
      path := path[..|path| - 1];
    }

    /** Consumes one array, its items numbered from k on, and stops after its closing bracket. */
    method Array(k: nat, ghost w: Walk) returns (ok: bool, n: nat, ghost v: Walk)
      requires Idle(w)
      modifies this`chunks, this`pos, this`base, this`end, this`mark, this`eof, this`failed, this`out, this`emit
      modifies this`scalar, this`name, this`keep, this`spilled, this`calls, this`path, buf
      ensures Valid() && w.at <= |input|
      ensures ok ==> Idle(v) && path == old(path) && ArrayRun(input, w, old(path), k, old(Settings())) == Some((v, n))
      ensures !ok ==> !fine || ArrayRun(input, w, old(path), k, old(Settings())).None?
    {
      hide *;
      IdleWithin(w);
      SettingsAre();
      ArrayIs(input, w, path, k, Settings());
      ghost var whole := path;
      n, v := 0, w;
      var c;
      ok, c := SkipIdle(w);
      ghost var i := At();
      DroppedIs(w, i);
      IdleWithin(Dropped(w, i));
      if !ok || c != OPEN_ARRAY { return false, 0, w; }
      StepIdle(Dropped(w, i));
      DroppedIs(Dropped(w, i), i + 1);
      v := Dropped(Dropped(w, i), i + 1);
      ok, c := SkipIdle(v);
      ghost var j := At();
      DroppedIs(v, j);
      v := Dropped(v, j);
      DroppedIs(w, j);
      IdleWithin(v);
      if !ok { return; }
      if c == CLOSE_ARRAY {
        StepIdle(v);
        DroppedIs(v, j + 1);
        DroppedIs(w, j + 1);
        v := Dropped(v, j + 1);
        IdleWithin(v);
        SettingsAre();
        return;
      }
      Inside(k, v);
      SettingsAre();
      var more := true;
      while more
        invariant Idle(v) && w.at <= v.at <= |input|
        invariant path == whole + [Index(if more || n == 0 then k + n else k + n - 1)]
        invariant more ==>
                    ArrayRun(input, w, whole, k, old(Settings()))
                      == SpliceRun(input, v, whole, k + n, n, Settings())
        invariant !more ==> n > 0 && ArrayRun(input, w, whole, k, old(Settings())) == Some((v, n))
        decreases more, |input| - v.at
      {
        ok, more, v := Item(n, whole, k + n, v);
        if !ok { return; }
        n := n + 1;
        SettingsAre();
        if more { NextIndex(v); }
      }
      ok := true;
      assert path[..|path| - 1] == whole;
      Outside(whole, v);
      IdleWithin(v);
    }

    lemma ItemsIs(prefix: seq<PathElem>, k: nat, u: Setup)
      ensures var r := ArrayRun(input, Walk(0, [], []), prefix, k, u);
              ArrayItemsRun(input, prefix, k, u) == if r.None? || SkipWs(input, r.value.0.at) < |input| then None else r
    {}

    lemma DroppedAgrees(w: Walk)
      requires w.at <= |input| && Agrees(Moved(w, |input|, emit)) && (hasOut ==> !emit)
      ensures Agrees(Dropped(w, |input|))
    {}

    lemma AtNothing()
      requires Valid() && At() == 0 && Written() == [] && calls == [] && !emit
      ensures Idle(Walk(0, [], [])) && (!hasOut ==> Walks(Walk(0, [], [])))
    {}

    lemma IdleParts(w: Walk)
      requires Idle(w)
      ensures Valid() && Agrees(w) && (hasOut ==> !emit) && w.at == At() <= |input|
    {}

    /** An array that is the whole text. */
    method Items(k: nat) returns (ok: bool, n: nat, ghost r: Walk)
      requires Valid() && At() == 0 && Written() == [] && calls == [] && !emit
      modifies this`chunks, this`pos, this`base, this`end, this`mark, this`eof, this`failed, this`out, this`emit
      modifies this`scalar, this`name, this`keep, this`spilled, this`calls, this`path, buf
      ensures ok <==> fine && ArrayItemsRun(input, old(path), k, old(Settings())).Some?
      ensures ok ==> ArrayItemsRun(input, old(path), k, old(Settings())) == Some((r, n))
      ensures ok ==> calls == r.calls && (hasOut ==> out == r.out)
    {
      hide *;
      AtNothing();
      AllFit();
      ItemsIs(path, k, Settings());
      ok, n, r := Array(k, Walk(0, [], []));
      if !ok { return; }
      IdleParts(r);
      ok := Finish(r);
      if !ok { return; }
      DroppedAgrees(r);
      DroppedIs(r, |input|);
      AllRead(Dropped(r, |input|));
      ok := Close(Dropped(r, |input|));
    }

    // The members of an object, with nothing written.

    /** Without output only the place and the calls matter. */
    lemma NoOutput(w: Walk, v: Walk)
      requires !hasOut && (Walks(w) || Idle(w)) && v.at == w.at && v.calls == w.calls
      ensures Walks(v) && Idle(v)
    {}

    /** Whom the next value is shown to, and under what path. */
    method Aim(visit: Option<Visitor>, path: seq<PathElem>, ghost w: Walk)
      requires Walks(w)
      modifies this`visit, this`path
      ensures Walks(w) && this.visit == visit && this.path == path
    {
      hide Comes;
      this.visit, this.path := visit, path;
    }

    /** A member's name and colon: the name decoded, and whether it was written with an escape. */
    method ReadNamed(ghost w: Walk) returns (ok: bool, text: seq<byte>, escaped: bool)
      requires Walks(w)
      modifies this`chunks, this`pos, this`base, this`end, this`mark, this`eof, this`failed, this`out, this`emit
      modifies this`scalar, this`name, this`keep, this`spilled, buf
      ensures Valid() && w.at <= |input|
      ensures ok ==> NameRun(input, w).Some? && Walks(NameRun(input, w).value.1)
                     && text == Decoded(NameRun(input, w).value.0, decode)
                     && escaped == (BACKSLASH in NameRun(input, w).value.0)
      ensures !ok ==> !fine || NameRun(input, w).None?
    {
      hide *;
      WalksWithin(w);
      NameIs(w);
      var c;
      escaped, text := false, [];
      ok, c := SkipTo(w);
      ghost var i := At();
      WalksWithin(Moved(w, i, true));
      if !ok || c != QUOTE { return false, [], false; }
      ok, text := ReadName(true, Moved(w, i, true));
      if !ok { return; }
      escaped := BACKSLASH in name;
      ghost var e := At();
      MovedOn(w, i, e, true);
      ok, c := SkipTo(Moved(w, e, true));
      ghost var k := At();
      WalksWithin(Moved(Moved(w, e, true), k, true));
      if !ok || c != COLON { return false, [], false; }
      MovedOn(w, e, k, true);
      Step(Moved(w, k, true));
      MovedOn(w, k, k + 1, true);
      WalksWithin(Moved(w, k + 1, true));
    }

    /** A member's value, the items of an array counted. */
    method ReadValue(isArray: bool, ghost name: seq<byte>, ghost w: Walk)
      returns (ok: bool, items: Option<nat>, ghost v: Walk)
      requires !hasOut && Walks(w) && w.at < |input| && isArray == (input[w.at] == OPEN_ARRAY) && path == [Key(name)]
      modifies this`chunks, this`pos, this`base, this`end, this`mark, this`eof, this`failed, this`out, this`emit
      modifies this`scalar, this`name, this`keep, this`spilled, this`calls, this`path, buf
      ensures Valid()
      ensures ok ==> MemberRun(input, w, name, Setup(visit, decode)) == Some((v, items)) && Walks(v)
      ensures !ok ==> !fine || MemberRun(input, w, name, Setup(visit, decode)).None?
    {
      hide *;
      SettingsAre();
      MemberIs(input, w, name, Settings());
      if isArray {
        NoOutput(w, w);
        var n;
        ok, n, v := Array(0, w);
        items := Some(n);
        if ok { NoOutput(v, v); }
      } else {
        items := None;
        ok, v := Value(w);
      }
      SettingsAre();
    }

    /** A member of the object, shown to whom its name chooses. */
    method ReadEntry(choose: Chooser, ghost w: Walk) returns (ok: bool, e: Entry, ghost v: Walk)
      requires !hasOut && Walks(w)
      modifies this`chunks, this`pos, this`base, this`end, this`mark, this`eof, this`failed, this`out, this`emit
      modifies this`scalar, this`name, this`keep, this`spilled, this`calls, this`path, this`visit, buf
      ensures Valid() && w.at <= |input|
      ensures ok ==> EntryRun(input, w, choose, decode) == Some((e, v)) && Walks(v)
      ensures !ok ==> !fine || EntryRun(input, w, choose, decode).None?
    {
      hide *;
      WalksWithin(w);
      EntryIs(input, w, choose, decode);
      e, v := Entry([], 0, 0, None, false), w;
      var text, escaped, c, items;
      ok, text, escaped := ReadNamed(w);
      if !ok { return; }
      ghost var after := NameRun(input, w).value.1;
      ok, c := SkipTo(after);
      var start := base + pos;
      Here();
      MovedSame(after, start);
      WalksWithin(Moved(after, start, true));
      if !ok { return; }
      DroppedIs(after, start);
      NoOutput(Moved(after, start, true), Dropped(after, start));
      Aim(choose(text), [Key(text)], Dropped(after, start));
      ok, items, v := ReadValue(c == OPEN_ARRAY, text, Dropped(after, start));
      if !ok { return; }
      Aim(None, [], v);
      WalksWithin(v);
      Here();
      e := Entry(text, start, base + pos, items, escaped);
    }

    lemma Here()
      ensures At() == base + pos
    {}

    lemma MovedSame(w: Walk, j: nat)
      requires w.at <= j <= |input|
      ensures Moved(w, j, true).at == j && Moved(w, j, true).calls == w.calls
    {}

    /** The members from a name on. */
    method ReadMembers(choose: Chooser, ghost w: Walk) returns (ok: bool, members: seq<Entry>)
      requires !hasOut && Walks(w)
      modifies this`chunks, this`pos, this`base, this`end, this`mark, this`eof, this`failed, this`out, this`emit
      modifies this`scalar, this`name, this`keep, this`spilled, this`calls, this`path, this`visit, buf
      ensures w.at <= |input|
      ensures ok <==> fine && MembersRun(input, w, choose, decode).Some?
      ensures ok ==> MembersRun(input, w, choose, decode) == Some((members, calls))
    {
      hide *;
      WalksWithin(w);
      ghost var v := w;
      members := [];
      NoneBefore(MembersRun(input, w, choose, decode));
      while true
        invariant Walks(v) && w.at <= v.at <= |input|
        invariant var whole, rest := MembersRun(input, w, choose, decode), MembersRun(input, v, choose, decode);
                  whole == if rest.None? then None else Some((members + rest.value.0, rest.value.1))
        decreases |input| - v.at
      {
        ghost var before := members;
        MembersAre(input, v, choose, decode);
        var e, c;
        ok, e, v := ReadEntry(choose, v);
        if !ok { return; }
        members := members + [e];
        WalksWithin(v);
        ok, c := SkipTo(v);
        ghost var j := At();
        MovedSame(v, j);
        ghost var u := Moved(v, j, true);
        WalksWithin(u);
        if !ok {
          HowEnded();
          return;
        }
        if c != COMMA && c != CLOSE_OBJECT { return false, members; }
        Step(u);
        MovedSame(u, j + 1);
        DroppedIs(v, j + 1);
        NoOutput(Moved(u, j + 1, true), Dropped(v, j + 1));
        v := Dropped(v, j + 1);
        if c == CLOSE_OBJECT {
          ByteOther();
          WalksParts(v);
          ok := Finish(v);
          EndCalls(v);
          return;
        }
        MoreMembers(before, e, MembersRun(input, v, choose, decode));
        WalksWithin(v);
      }
    }

    lemma ByteOther()
      ensures CLOSE_OBJECT != COMMA
    {}

    lemma EndCalls(w: Walk)
      requires w.at <= |input|
      ensures Agrees(Moved(w, |input|, emit)) ==> calls == w.calls
    {}

    lemma NoneBefore(rest: Option<(seq<Entry>, seq<Call>)>)
      ensures rest == if rest.None? then None else Some(([] + rest.value.0, rest.value.1))
    {
      if rest.Some? { assert [] + rest.value.0 == rest.value.0; }
    }

    lemma MoreMembers(before: seq<Entry>, e: Entry, rest: Option<(seq<Entry>, seq<Call>)>)
      ensures rest.Some? ==> before + ([e] + rest.value.0) == (before + [e]) + rest.value.0
    {}

    /** The members of an object that is the whole text. */
    method Members(choose: Chooser) returns (ok: bool, members: seq<Entry>)
      requires !hasOut && Valid() && At() == 0 && Written() == [] && calls == [] && !emit
      modifies this`chunks, this`pos, this`base, this`end, this`mark, this`eof, this`failed, this`out, this`emit
      modifies this`scalar, this`name, this`keep, this`spilled, this`calls, this`path, this`visit, buf
      ensures ok <==> fine && ObjectRun(input, choose, decode).Some?
      ensures ok ==> ObjectRun(input, choose, decode) == Some((members, calls))
    {
      hide *;
      AtNothing();
      AllFit();
      ObjectIs(input, choose, decode);
      ghost var v := Walk(0, [], []);
      var c;
      members := [];
      ok, c := SkipTo(v);
      ghost var i := At();
      MovedSame(v, i);
      ghost var u := Moved(v, i, true);
      WalksWithin(u);
      HowEnded();
      if !ok || c != OPEN_OBJECT { return false, []; }
      Step(u);
      MovedSame(u, i + 1);
      ghost var a := Moved(u, i + 1, true);
      WalksWithin(a);
      ok, c := SkipTo(a);
      ghost var j := At();
      MovedSame(a, j);
      ghost var b := Moved(a, j, true);
      WalksWithin(b);
      HowEnded();
      if !ok { return; }
      if c == CLOSE_OBJECT {
        Step(b);
        MovedSame(b, j + 1);
        WalksParts(Moved(b, j + 1, true));
        ok := Finish(Moved(b, j + 1, true));
        EndCalls(Moved(b, j + 1, true));
        return;
      }
      MembersOn(input, Walk(i + 1, [], []), j, choose, decode);
      CopiedAt(input, Walk(i + 1, [], []), j);
      NoOutput(b, Copied(input, Walk(i + 1, [], []), j));
      ok, members := ReadMembers(choose, Copied(input, Walk(i + 1, [], []), j));
    }
  }
}
