/** Playing recorded model calls back (src/orchestra/providers/replay.py). */
module Replay {
  import opened Wrappers

  /** A recorded call; an empty hash stands for a recording without one. */
  datatype Recording = Recording(promptHash: string, content: string)

  /** Raised when nothing is left to replay. */
  datatype ReplayError = Exhausted

  datatype Player = Player(calls: seq<Recording>, ptr: nat, byHash: map<string, seq<nat>>)

  function Queue(byHash: map<string, seq<nat>>, h: string): seq<nat> {
    if h in byHash then byHash[h] else []
  }

  /** The index of the first n recordings: the recordings of each hash in order. */
  function Index(calls: seq<Recording>, n: nat): map<string, seq<nat>>
    requires n <= |calls|
  {
    if n == 0 then map[]
    else
      var before, h := Index(calls, n - 1), calls[n - 1].promptHash;
      if h == "" then before else before[h := Queue(before, h) + [n - 1]]
  }

  function Loaded(calls: seq<Recording>): Player {
    Player(calls, 0, Index(calls, |calls|))
  }

  /** One request: the first recording left for its hash, else the next one of the sequential pointer. */
  function Completed(p: Player, h: string): (Player, Result<nat, ReplayError>) {
    var q := Queue(p.byHash, h);
    if q != [] then (p.(byHash := p.byHash[h := q[1..]]), Ok(q[0]))
    else if p.ptr < |p.calls| then (p.(ptr := p.ptr + 1), Ok(p.ptr))
    else (p, Err(Exhausted))
  }

  class ReplayProvider {
    var calls: seq<Recording>
    var ptr: nat
    var byHash: map<string, seq<nat>>

    ghost function Contents(): Player
      reads this
    {
      Player(calls, ptr, byHash)
    }

    ghost predicate Valid()
      reads this
    {
      forall h, i :: h in byHash && 0 <= i < |byHash[h]| ==> byHash[h][i] < |calls|
    }

    constructor (recorded: seq<Recording>)
      ensures Valid() && Contents() == Loaded(recorded)
    {
      calls := recorded;
      ptr := 0;
      byHash := map[];
      new;
      for i := 0 to |recorded|
        invariant calls == recorded && ptr == 0
        invariant byHash == Index(recorded, i)
        invariant Valid()
      {
        var h := recorded[i].promptHash;
        if h != "" {
          byHash := byHash[h := (if h in byHash then byHash[h] else []) + [i]];
        }
      }
    }

    method Complete(h: string) returns (answer: Result<Recording, ReplayError>, ghost index: Result<nat, ReplayError>)
      requires Valid()
      modifies this`ptr, this`byHash
      ensures Valid() && (Contents(), index) == Completed(old(Contents()), h)
      ensures index.Ok? ==> index.value < |calls| && answer == Ok(calls[index.value])
      ensures index.Err? ==> answer == Err(Exhausted)
    {
      if h in byHash && byHash[h] != [] {
        var idx := byHash[h][0];
        byHash := byHash[h := byHash[h][1..]];
        answer, index := Ok(calls[idx]), Ok(idx);
      } else if ptr < |calls| {
        answer, index := Ok(calls[ptr]), Ok(ptr);
        ptr := ptr + 1;
      } else {
        answer, index := Err(Exhausted), Err(Exhausted);
      }
    }
  }

  // ---- What a history of requests is answered ----

  /** The places of a hash among the first n recordings; recordings without hash have no place. */
  function Places(calls: seq<Recording>, n: nat, h: string): seq<nat>
    requires n <= |calls|
  {
    if n == 0 then []
    else Places(calls, n - 1, h) + (if h != "" && calls[n - 1].promptHash == h then [n - 1] else [])
  }

  function Count(requests: seq<string>, h: string): nat {
    if requests == [] then 0
    else Count(requests[..|requests| - 1], h) + (if requests[|requests| - 1] == h then 1 else 0)
  }

  function Recorded(calls: seq<Recording>, h: string): seq<nat> {
    Places(calls, |calls|, h)
  }

  function After(calls: seq<Recording>, requests: seq<string>): Player {
    if requests == [] then Loaded(calls)
    else Completed(After(calls, requests[..|requests| - 1]), requests[|requests| - 1]).0
  }

  /** The place of the recording that answers request j. */
  function Answer(calls: seq<Recording>, requests: seq<string>, j: nat): Result<nat, ReplayError>
    requires j < |requests|
  {
    Completed(After(calls, requests[..j]), requests[j]).1
  }

  /** Request j comes when the recordings of its hash are used up. */
  predicate FallsBack(calls: seq<Recording>, requests: seq<string>, j: nat)
    requires j < |requests|
  {
    Count(requests[..j], requests[j]) >= |Recorded(calls, requests[j])|
  }

  /** How many requests fell back on the pointer. */
  function Fallbacks(calls: seq<Recording>, requests: seq<string>): nat {
    if requests == [] then 0
    else Fallbacks(calls, requests[..|requests| - 1]) + (if FallsBack(calls, requests, |requests| - 1) then 1 else 0)
  }

  function Min(a: nat, b: nat): nat {
    if a < b then a else b
  }

  lemma {:induction false} IndexHoldsPlaces(calls: seq<Recording>, n: nat, h: string)
    requires n <= |calls|
    ensures Queue(Index(calls, n), h) == Places(calls, n, h)
  {
    if n > 0 {
      IndexHoldsPlaces(calls, n - 1, h);
      if h == calls[n - 1].promptHash {
        assert h != "" ==> Queue(Index(calls, n), h) == Queue(Index(calls, n - 1), h) + [n - 1];
      }
    }
  }

  /** After any history, each hash has lost the recordings asked for and the pointer has moved once per fallback. */
  lemma {:induction false} StateAfter(calls: seq<Recording>, requests: seq<string>, h: string)
    ensures var p := After(calls, requests);
            && p.calls == calls
            && Queue(p.byHash, h) == Recorded(calls, h)[Min(Count(requests, h), |Recorded(calls, h)|)..]
            && p.ptr == Min(Fallbacks(calls, requests), |calls|)
    decreases |requests|
  {
    if requests == [] {
      IndexHoldsPlaces(calls, |calls|, h);
    } else {
      var before, r := requests[..|requests| - 1], requests[|requests| - 1];
      StateAfter(calls, before, h);
      StateAfter(calls, before, r);
    }
  }

  /** Every answer of every history: the i-th request of a hash gets its i-th recording, else the pointer decides. */
  lemma AnswerDecided(calls: seq<Recording>, requests: seq<string>, j: nat)
    requires j < |requests|
    ensures var places := Recorded(calls, requests[j]);
            var earlier := Count(requests[..j], requests[j]);
            var k := Fallbacks(calls, requests[..j]);
            Answer(calls, requests, j) ==
            if earlier < |places| then Ok(places[earlier]) else if k < |calls| then Ok(k) else Err(Exhausted)
  {
    StateAfter(calls, requests[..j], requests[j]);
  }

  /** Every request has a recording of its own hash left. */
  predicate Covered(calls: seq<Recording>, requests: seq<string>) {
    forall h :: h in requests ==> Count(requests, h) <= |Recorded(calls, h)|
  }

  lemma {:induction false} CountGrows(requests: seq<string>, j: nat, h: string)
    requires j <= |requests|
    ensures Count(requests[..j], h) <= Count(requests, h)
    ensures j < |requests| && requests[j] == h ==> Count(requests[..j], h) < Count(requests, h)
    decreases |requests|
  {
    if j == |requests| {
      assert requests[..j] == requests;
    } else {
      var before := requests[..|requests| - 1];
      CountGrows(before, j, h);
      assert before[..j] == requests[..j];
    }
  }

  lemma {:induction false} CoveredNeverFallsBack(calls: seq<Recording>, requests: seq<string>)
    requires Covered(calls, requests)
    ensures forall j :: 0 <= j < |requests| ==> !FallsBack(calls, requests, j)
    ensures Fallbacks(calls, requests) == 0
    decreases |requests|
  {
    forall j | 0 <= j < |requests|
      ensures !FallsBack(calls, requests, j)
    {
      CountGrows(requests, j, requests[j]);
    }
    if requests != [] {
      var before := requests[..|requests| - 1];
      forall h | h in before
        ensures Count(before, h) <= |Recorded(calls, h)|
      {
        CountGrows(requests, |requests| - 1, h);
      }
      CoveredNeverFallsBack(calls, before);
    }
  }

  // ---- Replay does not depend on scheduling ----

  /** The answers to the requests of one hash, in order. */
  function AnswersTo(calls: seq<Recording>, requests: seq<string>, n: nat, h: string): seq<Result<nat, ReplayError>>
    requires n <= |requests|
  {
    if n == 0 then []
    else AnswersTo(calls, requests, n - 1, h) +
         (if requests[n - 1] == h then [Answer(calls, requests, n - 1)] else [])
  }

  function Oks(places: seq<nat>): (r: seq<Result<nat, ReplayError>>)
    ensures |r| == |places| && forall i :: 0 <= i < |r| ==> r[i] == Ok(places[i])
  {
    if places == [] then [] else [Ok(places[0])] + Oks(places[1..])
  }

  /**
   However the requests are ordered, the requests of a hash are answered by its first recordings in order,
   and the pointer never moves.
   */
  lemma {:induction false} ReplayIgnoresScheduling(calls: seq<Recording>, requests: seq<string>, h: string)
    requires Covered(calls, requests)
    ensures Count(requests, h) <= |Recorded(calls, h)|
    ensures AnswersTo(calls, requests, |requests|, h) == Oks(Recorded(calls, h)[..Count(requests, h)])
    ensures After(calls, requests).ptr == 0
  {
    if h !in requests {
      Absent(requests, h);
    }
    assert requests[..|requests|] == requests;
    AnswersInOrder(calls, requests, |requests|, h);
    CoveredNeverFallsBack(calls, requests);
    StateAfter(calls, requests, h);
  }

  lemma {:induction false} Absent(requests: seq<string>, h: string)
    requires h !in requests
    ensures Count(requests, h) == 0
    decreases |requests|
  {
    if requests != [] {
      Absent(requests[..|requests| - 1], h);
    }
  }

  lemma {:induction false} AnswersInOrder(calls: seq<Recording>, requests: seq<string>, n: nat, h: string)
    requires n <= |requests| && Count(requests[..n], h) <= |Recorded(calls, h)|
    ensures AnswersTo(calls, requests, n, h) == Oks(Recorded(calls, h)[..Count(requests[..n], h)])
  {
    if n > 0 {
      assert requests[..n][..n - 1] == requests[..n - 1];
      AnswersInOrder(calls, requests, n - 1, h);
      if requests[n - 1] == h {
        AnswerDecided(calls, requests, n - 1);
      }
    }
  }

  lemma {:induction false} PlacesIncrease(calls: seq<Recording>, n: nat, h: string)
    requires n <= |calls|
    ensures forall i :: 0 <= i < |Places(calls, n, h)| ==>
              Places(calls, n, h)[i] < n && calls[Places(calls, n, h)[i]].promptHash == h
    ensures forall i, j :: 0 <= i < j < |Places(calls, n, h)| ==> Places(calls, n, h)[i] < Places(calls, n, h)[j]
  {
    if n > 0 {
      PlacesIncrease(calls, n - 1, h);
    }
  }

  /** No recording is replayed twice. */
  lemma NoRecordingTwice(calls: seq<Recording>, requests: seq<string>, i: nat, j: nat)
    requires Covered(calls, requests) && i < j < |requests|
    ensures Answer(calls, requests, i).Ok? && Answer(calls, requests, j).Ok?
    ensures Answer(calls, requests, i) != Answer(calls, requests, j)
  {
    CoveredNeverFallsBack(calls, requests);
    assert !FallsBack(calls, requests, i) && !FallsBack(calls, requests, j);
    AnswerDecided(calls, requests, i);
    AnswerDecided(calls, requests, j);
    PlacesIncrease(calls, |calls|, requests[i]);
    PlacesIncrease(calls, |calls|, requests[j]);
    CountGrows(requests[..j], i, requests[i]);
    assert requests[..j][..i] == requests[..i];
  }

  // ---- When a recording is used twice ----

  /** How many recordings before this one have its hash. */
  function Rank(calls: seq<Recording>, p: nat): nat
    requires p < |calls|
  {
    |Places(calls, p, calls[p].promptHash)|
  }

  /** The pointer has passed the recording, and so many requests of its hash came that one of them got it too. */
  predicate ServedBothWays(calls: seq<Recording>, requests: seq<string>, p: nat)
    requires p < |calls|
  {
    && p < Fallbacks(calls, requests)
    && calls[p].promptHash != "" && Rank(calls, p) < Count(requests, calls[p].promptHash)
  }

  ghost predicate UsedTwice(calls: seq<Recording>, requests: seq<string>) {
    exists i, j :: 0 <= i < j < |requests| && SameRecording(calls, requests, i, j)
  }

  predicate SameRecording(calls: seq<Recording>, requests: seq<string>, i: nat, j: nat)
    requires i < |requests| && j < |requests|
  {
    Answer(calls, requests, i).Ok? && Answer(calls, requests, i) == Answer(calls, requests, j)
  }

  /** A recording is at its rank among those of its hash. */
  lemma {:induction false} PlaceOf(calls: seq<Recording>, n: nat, p: nat)
    requires p < n <= |calls| && calls[p].promptHash != ""
    ensures Rank(calls, p) < |Places(calls, n, calls[p].promptHash)|
    ensures Places(calls, n, calls[p].promptHash)[Rank(calls, p)] == p
  {
    if n > p + 1 {
      PlaceOf(calls, n - 1, p);
    }
  }

  /** And nothing else is. */
  lemma RankOfPlace(calls: seq<Recording>, h: string, c: nat)
    requires c < |Recorded(calls, h)|
    ensures var p := Recorded(calls, h)[c]; p < |calls| && calls[p].promptHash == h != "" && Rank(calls, p) == c
  {
    PlacesIncrease(calls, |calls|, h);
    PlacesNamed(calls, |calls|, h);
    var p := Recorded(calls, h)[c];
    PlaceOf(calls, |calls|, p);
  }

  lemma {:induction false} PlacesNamed(calls: seq<Recording>, n: nat, h: string)
    requires n <= |calls|
    ensures Places(calls, n, h) != [] ==> h != ""
  {
    if n > 0 {
      PlacesNamed(calls, n - 1, h);
    }
  }

  /** The request that comes after c others of its hash. */
  lemma {:induction false} NthRequest(requests: seq<string>, h: string, c: nat) returns (j: nat)
    requires c < Count(requests, h)
    ensures j < |requests| && requests[j] == h && Count(requests[..j], h) == c
    decreases |requests|
  {
    var n := |requests| - 1;
    if c < Count(requests[..n], h) {
      j := NthRequest(requests[..n], h, c);
      assert requests[..n][..j] == requests[..j];
    } else {
      j := n;
    }
  }

  /** The request that falls back after k others did. */
  lemma {:induction false} NthFallback(calls: seq<Recording>, requests: seq<string>, k: nat) returns (j: nat)
    requires k < Fallbacks(calls, requests)
    ensures j < |requests| && FallsBack(calls, requests, j) && Fallbacks(calls, requests[..j]) == k
    decreases |requests|
  {
    var n := |requests| - 1;
    if k < Fallbacks(calls, requests[..n]) {
      j := NthFallback(calls, requests[..n], k);
      assert requests[..n][..j] == requests[..j];
    } else {
      j := n;
    }
  }

  lemma {:induction false} FallbacksGrow(calls: seq<Recording>, requests: seq<string>, j: nat)
    requires j <= |requests|
    ensures Fallbacks(calls, requests[..j]) <= Fallbacks(calls, requests)
    ensures j < |requests| && FallsBack(calls, requests, j) ==>
              Fallbacks(calls, requests[..j]) < Fallbacks(calls, requests)
    decreases |requests|
  {
    if j == |requests| {
      assert requests[..j] == requests;
    } else {
      var before := requests[..|requests| - 1];
      if j < |before| {
        assert before[..j] == requests[..j];
        FallbacksGrow(calls, before, j);
      } else {
        assert before == requests[..j];
      }
    }
  }

  /** Two requests of one history: the later of two fallbacks, or of two requests of one hash, counts more. */
  lemma LaterCountsMore(calls: seq<Recording>, requests: seq<string>, i: nat, j: nat)
    requires i < j < |requests|
    ensures FallsBack(calls, requests, i) ==> Fallbacks(calls, requests[..i]) < Fallbacks(calls, requests[..j])
    ensures Count(requests[..i], requests[i]) < Count(requests[..j], requests[i])
  {
    assert requests[..j][..i] == requests[..i] && requests[..j][i] == requests[i];
    FallbacksGrow(calls, requests[..j], i);
    CountGrows(requests[..j], i, requests[i]);
  }

  /** A request that is served is served by its hash, at its rank, or by the pointer. */
  lemma ServedOneWay(calls: seq<Recording>, requests: seq<string>, j: nat)
    requires j < |requests| && Answer(calls, requests, j).Ok?
    ensures var p := Answer(calls, requests, j).value;
            && p < |calls|
            && (FallsBack(calls, requests, j) ==>
                  p == Fallbacks(calls, requests[..j]) < Fallbacks(calls, requests))
            && (!FallsBack(calls, requests, j) ==>
                  && calls[p].promptHash == requests[j] != ""
                  && Rank(calls, p) == Count(requests[..j], requests[j]) < Count(requests, requests[j]))
  {
    AnswerDecided(calls, requests, j);
    FallbacksGrow(calls, requests, j);
    CountGrows(requests, j, requests[j]);
    if !FallsBack(calls, requests, j) {
      RankOfPlace(calls, requests[j], Count(requests[..j], requests[j]));
    }
  }

  lemma BothWaysTwice(calls: seq<Recording>, requests: seq<string>, p: nat)
    requires p < |calls| && ServedBothWays(calls, requests, p)
    ensures UsedTwice(calls, requests)
  {
    var h := calls[p].promptHash;
    var i := NthFallback(calls, requests, p);
    var j := NthRequest(requests, h, Rank(calls, p));
    AnswerDecided(calls, requests, i);
    AnswerDecided(calls, requests, j);
    PlaceOf(calls, |calls|, p);
    assert !FallsBack(calls, requests, j) && i != j;
    if i < j {
      assert SameRecording(calls, requests, i, j);
    } else {
      assert SameRecording(calls, requests, j, i);
    }
  }

  lemma TwiceBothWays(calls: seq<Recording>, requests: seq<string>, i: nat, j: nat)
    requires i < j < |requests| && SameRecording(calls, requests, i, j)
    ensures Answer(calls, requests, i).value < |calls|
    ensures ServedBothWays(calls, requests, Answer(calls, requests, i).value)
  {
    ServedOneWay(calls, requests, i);
    ServedOneWay(calls, requests, j);
    LaterCountsMore(calls, requests, i, j);
  }

  /**
   For every recording and every history of requests: some recording is used twice if and only if the pointer has passed
   one that a request of its own hash also got.
   */
  lemma UsedTwiceExactly(calls: seq<Recording>, requests: seq<string>)
    ensures UsedTwice(calls, requests) <==> exists p :: 0 <= p < |calls| && ServedBothWays(calls, requests, p)
  {
    if UsedTwice(calls, requests) {
      var i, j :| 0 <= i < j < |requests| && SameRecording(calls, requests, i, j);
      TwiceBothWays(calls, requests, i, j);
    }
    if p :| 0 <= p < |calls| && ServedBothWays(calls, requests, p) {
      BothWaysTwice(calls, requests, p);
    }
  }

  // ---- Recordings without hashes ----

  lemma {:induction false} NoPlaces(calls: seq<Recording>, n: nat, h: string)
    requires n <= |calls| && forall i :: 0 <= i < |calls| ==> calls[i].promptHash == ""
    ensures Places(calls, n, h) == []
  {
    if n > 0 {
      NoPlaces(calls, n - 1, h);
    }
  }

  lemma {:induction false} AllFallBack(calls: seq<Recording>, requests: seq<string>)
    requires forall i :: 0 <= i < |calls| ==> calls[i].promptHash == ""
    ensures Fallbacks(calls, requests) == |requests|
    decreases |requests|
  {
    if requests != [] {
      AllFallBack(calls, requests[..|requests| - 1]);
      NoPlaces(calls, |calls|, requests[|requests| - 1]);
    }
  }

  /** The k-th request gets the k-th call, whatever it asks, until the recordings run out. */
  lemma UnhashedReplayIsSequential(calls: seq<Recording>, requests: seq<string>, k: nat)
    requires forall i :: 0 <= i < |calls| ==> calls[i].promptHash == ""
    requires k < |requests|
    ensures Answer(calls, requests, k) == if k < |calls| then Ok(k) else Err(Exhausted)
  {
    AnswerDecided(calls, requests, k);
    NoPlaces(calls, |calls|, requests[k]);
    AllFallBack(calls, requests[..k]);
  }

  /**
   The first request without a recording of its hash replays the first recording of all, even one already replayed:
   a diverged prompt is reported only when the pointer runs out.
   */
  lemma {:induction false} DivergedRequestRepeats(calls: seq<Recording>, requests: seq<string>, h: string)
    requires Covered(calls, requests) && |calls| > 0 && Count(requests, h) == |Recorded(calls, h)|
    ensures Answer(calls, requests + [h], |requests|) == Ok(0)
    ensures var h0 := calls[0].promptHash;
            forall j :: 0 <= j < |requests| && requests[j] == h0 && h0 !in requests[..j] ==>
              Answer(calls, requests, j) == Ok(0)
  {
    assert (requests + [h])[..|requests|] == requests;
    CoveredNeverFallsBack(calls, requests);
    AnswerDecided(calls, requests + [h], |requests|);
    forall j | 0 <= j < |requests| && requests[j] == calls[0].promptHash && calls[0].promptHash !in requests[..j]
      ensures Answer(calls, requests, j) == Ok(0)
    {
      Absent(requests[..j], requests[j]);
      AnswerDecided(calls, requests, j);
      assert !FallsBack(calls, requests, j);
      FirstPlace(calls, |calls|, requests[j]);
    }
  }

  lemma {:induction false} FirstPlace(calls: seq<Recording>, n: nat, h: string)
    requires 0 < n <= |calls| && calls[0].promptHash == h && Places(calls, n, h) != []
    ensures Places(calls, n, h)[0] == 0
  {
    PlacesIncrease(calls, n, h);
    if n > 1 {
      if h != "" {
        HasFirst(calls, n - 1, h);
      } else {
        NoEmptyHash(calls, n);
      }
    }
  }

  lemma {:induction false} HasFirst(calls: seq<Recording>, n: nat, h: string)
    requires 0 < n <= |calls| && h != "" && calls[0].promptHash == h
    ensures Places(calls, n, h) != [] && Places(calls, n, h)[0] == 0
  {
    if n > 1 {
      HasFirst(calls, n - 1, h);
    }
  }

  lemma {:induction false} NoEmptyHash(calls: seq<Recording>, n: nat)
    requires n <= |calls|
    ensures Places(calls, n, "") == []
  {
    if n > 0 {
      NoEmptyHash(calls, n - 1);
    }
  }

  /** One recording, asked for by its hash and then by another: it answers both requests. */
  lemma RepeatedAtOnce(content: string)
    ensures var calls, requests := [Recording("h", content)], ["h", "g"];
            Answer(calls, requests, 0) == Ok(0) && Answer(calls, requests, 1) == Ok(0) && UsedTwice(calls, requests)
  {
    var calls, requests := [Recording("h", content)], ["h", "g"];
    assert requests[..0] == [] && requests[..1] == ["h"] && ["h"][..0] == [];
    var none: map<string, seq<nat>> := map[];
    assert Index(calls, 0) == none;
    assert Queue(none, "h") + [0] == [0] && Index(calls, 1) == none["h" := [0]];
    assert Completed(Loaded(calls), "h") == (Player(calls, 0, none["h" := [0]]["h" := []]), Ok(0));
    assert SameRecording(calls, requests, 0, 1);
  }
}
