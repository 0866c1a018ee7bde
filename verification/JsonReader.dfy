/** What a reader hands over (internal/jsonx/rewrite.go:218-250), said of all its reads together. */
module JsonReader {
  import opened JsonScan
  import opened Walker

  function AllBytes(chunks: seq<Chunk>): seq<byte>
    decreases |chunks|
  {
    if chunks == [] then [] else chunks[0].data + AllBytes(chunks[1..])
  }

  /** The n reads from i on return nothing. */
  predicate Silent(chunks: seq<Chunk>, i: nat, n: nat) {
    i + n <= |chunks| && forall k :: i <= k < i + n ==> chunks[k].data == []
  }

  /** 101 reads in a row return nothing, the first of them perhaps before these. */
  ghost predicate Stalls(chunks: seq<Chunk>, empty: nat) {
    (empty <= 100 && Silent(chunks, 0, 101 - empty)) || exists i :: 0 <= i && Silent(chunks, i, 101)
  }

  lemma StallsNext(chunks: seq<Chunk>, empty: nat)
    requires chunks != [] && empty <= 100
    ensures chunks[0].data != [] ==> (Stalls(chunks, empty) <==> Stalls(chunks[1..], 0))
    ensures chunks[0].data == [] && empty < 100 ==> (Stalls(chunks, empty) <==> Stalls(chunks[1..], empty + 1))
    ensures chunks[0].data == [] && empty == 100 ==> Stalls(chunks, empty)
  {
    var rest := chunks[1..];
    forall i: nat, n: nat ensures Silent(rest, i, n) <==> Silent(chunks, i + 1, n) {
      if Silent(chunks, i + 1, n) {
        forall k | i <= k < i + n ensures rest[k].data == [] { assert rest[k] == chunks[k + 1]; }
      }
      if Silent(rest, i, n) {
        forall k | i + 1 <= k < i + 1 + n ensures chunks[k].data == [] { assert rest[k - 1] == chunks[k]; }
      }
    }
    FirstSilent(chunks, 101 - empty);
    FirstSilent(chunks, 101);
    if i: nat :| Silent(chunks, i, 101) && i > 0 { assert Silent(rest, i - 1, 101); }
    if i: nat :| Silent(rest, i, 101) { assert Silent(chunks, i + 1, 101); }
    hide Silent;
    if chunks[0].data == [] && empty < 100 && Silent(chunks, 0, 101) {
      Shorter(chunks, 0, 101, 101 - empty);
    }
    if Silent(rest, 0, 101) { assert Silent(chunks, 1, 101); }
  }

  lemma FirstSilent(chunks: seq<Chunk>, n: nat)
    requires chunks != [] && n > 0
    ensures Silent(chunks, 0, n) <==> chunks[0].data == [] && Silent(chunks[1..], 0, n - 1)
  {
    var rest := chunks[1..];
    if chunks[0].data == [] && Silent(rest, 0, n - 1) {
      forall k | 0 <= k < n ensures chunks[k].data == [] { if k > 0 { assert chunks[k] == rest[k - 1]; } }
    }
  }

  lemma Shorter(chunks: seq<Chunk>, i: nat, n: nat, m: nat)
    requires Silent(chunks, i, n) && m <= n
    ensures Silent(chunks, i, m)
  {}

  lemma {:induction false} RestIs(chunks: seq<Chunk>, i: nat, empty: nat)
    requires i <= |chunks| && empty <= 100 && forall k :: 0 <= k < i ==> chunks[k].status == More
    requires i < |chunks| ==> chunks[i].status != More
    ensures Stalls(chunks[..i], empty) ==> !Rest(chunks, empty).fine
    ensures !Stalls(chunks[..i], empty) ==>
              Rest(chunks, empty) == Stream(
                AllBytes(chunks[..i]) + if i < |chunks| then chunks[i].data else [],
                i == |chunks| || chunks[i].status == End)
    decreases |chunks|
  {
    if i == 0 {
      assert chunks[..0] == [];
    } else {
      var rest := chunks[1..];
      assert chunks[..i][1..] == rest[..i - 1] && chunks[..i][0] == chunks[0];
      StallsNext(chunks[..i], empty);
      hide Stalls;
      if chunks[0].data != [] {
        RestIs(rest, i - 1, 0);
        Onward(chunks[0].data, AllBytes(rest[..i - 1]), if i < |chunks| then chunks[i].data else []);
      } else if empty < 100 {
        RestIs(rest, i - 1, empty + 1);
        Onward([], AllBytes(rest[..i - 1]), if i < |chunks| then chunks[i].data else []);
      }
    }
  }

  lemma Onward(a: seq<byte>, b: seq<byte>, c: seq<byte>)
    ensures a + (b + c) == (a + b) + c && [] + b == b
  {}

  /**
   * A reader gives all its bytes, up to the read that ends them or fails, unless 101 reads in a row before that
   * return nothing: then it is given up. Its bytes end well unless it failed or was given up.
   */
  lemma ReaderGives(chunks: seq<Chunk>, i: nat)
    requires i <= |chunks| && (forall k :: 0 <= k < i ==> chunks[k].status == More)
    requires i < |chunks| ==> chunks[i].status != More
    ensures (exists j :: 0 <= j && Silent(chunks[..i], j, 101)) ==> !Rest(chunks, 0).fine
    ensures !(exists j :: 0 <= j && Silent(chunks[..i], j, 101)) ==>
              Rest(chunks, 0) == Stream(
                AllBytes(chunks[..i]) + if i < |chunks| then chunks[i].data else [],
                i == |chunks| || chunks[i].status == End)
  {
    RestIs(chunks, i, 0);
    hide Rest, AllBytes, Silent;
  }
}
