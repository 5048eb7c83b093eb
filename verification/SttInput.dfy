// PCM on its way to the recogniser: physical frames are staged into fixed logical
// chunks for a bounded queue, without ever waiting for inference.

module SttInput {
  import opened Bytes

  const LOGICAL_CHUNK_BYTES := 4096

  class LiveMoonshineWorker {
    const capacity: nat
    var staging: bytes
    var audio: seq<bytes>
    var accepting: bool
    var inputDone: bool
    // History: everything offered, everything published, everything taken by inference.
    var offered: bytes
    var published: seq<bytes>
    var processed: seq<bytes>
    // Set by overflow, odd input, a foreign sample rate, abort or a late offer.
    var spoiled: bool
    // The input ended by end_input, not by an abort.
    var ended: bool

    constructor (capacity: nat)
      ensures this.capacity == capacity && Valid() && offered == [] && published == [] && !spoiled && !inputDone && !ended
    {
      this.capacity, staging, audio, accepting, inputDone := capacity, [], [], true, false;
      offered, published, processed, spoiled, ended := [], [], [], false, false;
    }

    ghost predicate Valid()
      reads this
    {
      && |audio| <= capacity && published == processed + audio
      && Concat(published) <= offered
      && (accepting && !inputDone ==> Concat(published) + staging == offered && |staging| < LOGICAL_CHUNK_BYTES)
      && (accepting && inputDone && !spoiled ==> Concat(published) == offered)
      && (!accepting ==> spoiled)
      && WholeChunks(published, !ended) && (ended ==> inputDone)
    }

    // _publish
    method Publish(pcm: bytes, ghost rest: bytes) returns (ok: bool)
      requires |audio| <= capacity && published == processed + audio
      requires Concat(published) + pcm + rest == offered
      modifies this`audio, this`published, this`accepting, this`spoiled
      ensures |audio| <= capacity && published == processed + audio && Concat(published) <= offered
      ensures ok <==> |old(audio)| < capacity
      ensures ok ==> audio == old(audio) + [pcm] && published == old(published) + [pcm]
      ensures ok ==> Concat(published) + rest == offered
      ensures ok ==> accepting == old(accepting) && spoiled == old(spoiled)
      ensures !ok ==> audio == old(audio) && published == old(published) && !accepting && spoiled
    {
      PrefixGrows(Concat(published), Concat(published), pcm);
      PrefixGrows(Concat(published), Concat(published) + pcm, rest);
      if |audio| >= capacity {
        accepting, spoiled := false, true;
        return false;
      }
      ConcatOne(published, pcm);
      audio, published := audio + [pcm], published + [pcm];
      return true;
    }

    // Refused exactly when the samples are odd, late, after a failure or too many for the
    // queue; only a refusal spoils the input.
    method OfferPcm(pcm: bytes) returns (ok: bool)
      requires Valid()
      modifies this`staging, this`audio, this`accepting, this`offered, this`published, this`spoiled
      ensures Valid() && offered == old(offered) + pcm && old(published) <= published
      ensures ok <==> pcm == [] || (|pcm| % 2 == 0 && old(accepting) && !inputDone && old(HasRoom(pcm)))
      ensures spoiled == (old(spoiled) || !ok)
      ensures ok ==> accepting == old(accepting)
      ensures ok && pcm == [] ==> staging == old(staging) && audio == old(audio) && published == old(published)
      ensures ok && pcm != [] ==> Coalesced(|old(staging)| + |pcm|, |staging|, |old(audio)|, |audio|)
      ensures !ok && (|pcm| % 2 == 1 || !old(accepting) || inputDone) ==>
        staging == old(staging) && audio == old(audio) && published == old(published)
      ensures !ok ==> accepting == (old(accepting) && |pcm| % 2 == 0 && inputDone)
    {
      hide Valid, Flowing, Coalesced, Room;
      if pcm == [] {
        assert offered + pcm == offered;
        return true;
      }
      if |pcm| % 2 == 1 || !accepting || inputDone {
        Refuse(pcm);
        return false;
      }
      Stage(pcm);
      ok := CutChunks();
    }

    method Refuse(pcm: bytes)
      requires Valid() && (|pcm| % 2 == 1 || !accepting || inputDone)
      modifies this`accepting, this`offered, this`spoiled
      ensures Valid() && offered == old(offered) + pcm && spoiled
      ensures accepting == (old(accepting) && |pcm| % 2 == 0)
    {
      PrefixGrows(Concat(published), offered, pcm);
      accepting := accepting && |pcm| % 2 == 0;
      offered, spoiled := offered + pcm, true;
    }

    method Stage(pcm: bytes)
      requires Valid() && accepting && !inputDone
      modifies this`staging, this`offered
      ensures Flowing() && offered == old(offered) + pcm && staging == old(staging) + pcm
    {
      Regroup(Concat(published), staging, pcm);
      staging, offered := staging + pcm, offered + pcm;
    }

    predicate HasRoom(pcm: bytes)
      reads this
    {
      Room(|staging| + |pcm|, |audio|, capacity)
    }

    ghost predicate Flowing()
      reads this
    {
      && accepting && !inputDone && !ended && |audio| <= capacity && published == processed + audio
      && Concat(published) + staging == offered && WholeChunks(published, true)
    }

    // Publish the staged bytes chunk by chunk; an overflow drops the rest.
    method CutChunks() returns (ok: bool)
      requires Flowing()
      modifies this`staging, this`audio, this`accepting, this`published, this`spoiled
      ensures Valid() && old(published) <= published
      ensures ok <==> Room(|old(staging)|, |old(audio)|, capacity)
      ensures spoiled == (old(spoiled) || !ok) && accepting == ok
      ensures ok ==> Coalesced(|old(staging)|, |staging|, |old(audio)|, |audio|)
    {
      hide Flowing;
      FlowingFacts();
      while |staging| >= LOGICAL_CHUNK_BYTES
        invariant Flowing() && accepting && |audio| <= capacity
        invariant old(published) <= published && spoiled == old(spoiled)
        invariant |staging| / LOGICAL_CHUNK_BYTES + |audio| == |old(staging)| / LOGICAL_CHUNK_BYTES + |old(audio)|
        invariant |staging| % LOGICAL_CHUNK_BYTES == |old(staging)| % LOGICAL_CHUNK_BYTES
        decreases |staging|
      {
        OneCut(|staging|);
        ok := CutOne();
        if !ok {
          return false;
        }
      }
      Settled();
      return true;
    }

    lemma FlowingFacts()
      requires Flowing()
      ensures accepting && |audio| <= capacity
    {
    }

    lemma Settled()
      requires Flowing() && |staging| < LOGICAL_CHUNK_BYTES
      ensures Valid()
    {
    }

    method CutOne() returns (ok: bool)
      requires Flowing() && |staging| >= LOGICAL_CHUNK_BYTES
      modifies this`staging, this`audio, this`accepting, this`published, this`spoiled
      ensures ok <==> |old(audio)| < capacity
      ensures old(published) <= published && spoiled == (old(spoiled) || !ok) && accepting == ok
      ensures ok ==> Flowing() && staging == old(staging)[LOGICAL_CHUNK_BYTES..] && |audio| == |old(audio)| + 1
      ensures !ok ==> Valid() && staging == []
    {
      var chunk, rest := staging[..LOGICAL_CHUNK_BYTES], staging[LOGICAL_CHUNK_BYTES..];
      assert staging == chunk + rest;
      Regroup(Concat(published), chunk, rest);
      staging := rest;
      ok := Publish(chunk, rest);
      if !ok {
        staging := [];
      }
    }

    predicate Flushing()
      reads this
    {
      accepting && staging != []
    }

    method EndInput()
      requires Valid()
      modifies this`staging, this`audio, this`accepting, this`inputDone, this`published, this`spoiled, this`ended
      ensures Valid() && inputDone && old(published) <= published && ended == (old(ended) || !old(inputDone))
      ensures old(inputDone) ==> published == old(published) && spoiled == old(spoiled)
      ensures old(inputDone) ==> staging == old(staging) && audio == old(audio) && accepting == old(accepting)
      // The flush completes the input; only a full queue spoils it.
      ensures !spoiled ==> Concat(published) == offered
      ensures !old(inputDone) ==> spoiled == (old(spoiled) || (old(Flushing()) && |old(audio)| == capacity))
      ensures !old(inputDone) ==> staging == []
      ensures !old(inputDone) ==>
        |audio| == |old(audio)| + if old(Flushing()) && |old(audio)| < capacity then 1 else 0
    {
      hide WholeChunks;
      if inputDone {
        return;
      }
      StillWhole(published);
      if accepting && staging != [] {
        FlushRest();
      }
      staging := [];
      inputDone, ended := true, true;
    }

    // The staged bytes become one last, short chunk, if the queue takes it.
    method FlushRest()
      requires Valid() && !inputDone && Flushing()
      modifies this`audio, this`accepting, this`published, this`spoiled
      ensures |audio| <= capacity && published == processed + audio && Concat(published) <= offered
      ensures WholeChunks(published, false) && old(published) <= published && !ended
      ensures spoiled == (old(spoiled) || |old(audio)| == capacity) && (!accepting ==> spoiled)
      ensures |audio| == |old(audio)| + if |old(audio)| < capacity then 1 else 0
      ensures !spoiled ==> Concat(published) == offered
    {
      Regroup(Concat(published), staging, []);
      LastChunk(published, staging);
      var _ := Publish(staging, []);
    }

    method Abort()
      requires Valid()
      modifies this`staging, this`accepting, this`inputDone, this`spoiled
      ensures Valid() && inputDone && spoiled && !accepting && staging == []
    {
      accepting, staging, inputDone, spoiled := false, [], true, true;
    }

    // on_begin with a sample rate the recogniser does not take.
    method RefuseRate()
      requires Valid()
      modifies this`accepting, this`spoiled
      ensures Valid() && !accepting && spoiled
    {
      accepting, spoiled := false, true;
    }

    // Inference takes the next chunk, if there is one.
    method Take()
      requires Valid()
      modifies this`audio, this`processed
      ensures Valid() && old(processed) <= processed
      ensures audio == if old(audio) == [] then [] else old(audio)[1..]
    {
      if audio != [] {
        processed, audio := processed + [audio[0]], audio[1..];
      }
    }

    // Nothing has gone wrong, and nothing will if these calls come next.
    predicate GoesSmoothly(calls: seq<Call>)
      reads this
    {
      !spoiled && Smooth(calls, |staging|, |audio|, inputDone, capacity)
    }

    // One call of the run; rest are the calls after it.
    method Do(call: Call, ghost rest: seq<Call>)
      requires Valid()
      modifies this
      ensures Valid() && old(published) <= published
      ensures offered == old(offered) + if call.Offer? then call.pcm else []
      ensures inputDone == (old(inputDone) || call == End || call == AbortInput)
      ensures ended == (old(ended) || (call == End && !old(inputDone)))
      ensures GoesSmoothly(rest) == old(GoesSmoothly([call] + rest))
    {
      hide Valid;
      assert ([call] + rest)[0] == call && ([call] + rest)[1..] == rest;
      match call
      case Offer(pcm) => ValidFacts(); var _ := OfferPcm(pcm);
      case End => ValidFacts(); EndInput();
      case AbortInput => Abort();
      case BadRate => RefuseRate();
      case Infer => Take();
    }

    lemma ValidFacts()
      requires Valid()
      ensures (!accepting ==> spoiled) && |audio| <= capacity
    {
    }
  }

  lemma OneCut(n: nat)
    requires n >= LOGICAL_CHUNK_BYTES
    ensures (n - LOGICAL_CHUNK_BYTES) / LOGICAL_CHUNK_BYTES == n / LOGICAL_CHUNK_BYTES - 1
    ensures (n - LOGICAL_CHUNK_BYTES) % LOGICAL_CHUNK_BYTES == n % LOGICAL_CHUNK_BYTES
  {
  }

  // The full chunks among so many bytes fit into the queue.
  predicate Room(pending: nat, depth: nat, capacity: nat) {
    pending < LOGICAL_CHUNK_BYTES || pending / LOGICAL_CHUNK_BYTES <= capacity - depth
  }

  // Every full chunk has moved from the staged bytes to the queue.
  predicate Coalesced(pending: nat, staged: nat, before: nat, depth: nat) {
    staged == pending % LOGICAL_CHUNK_BYTES && depth == before + pending / LOGICAL_CHUNK_BYTES
  }

  // All chunks are full, except that the last may be short once the input has ended.
  ghost predicate WholeChunks(chunks: seq<bytes>, all: bool) {
    && (forall i :: 0 <= i < |chunks| - 1 ==> |chunks[i]| == LOGICAL_CHUNK_BYTES)
    && (chunks != [] ==> 0 < |chunks[|chunks| - 1]| <= LOGICAL_CHUNK_BYTES)
    && (all && chunks != [] ==> |chunks[|chunks| - 1]| == LOGICAL_CHUNK_BYTES)
  }

  lemma StillWhole(chunks: seq<bytes>)
    ensures WholeChunks(chunks, true) ==> WholeChunks(chunks, false)
  {
  }

  lemma LastChunk(chunks: seq<bytes>, chunk: bytes)
    requires WholeChunks(chunks, true) && 0 < |chunk| <= LOGICAL_CHUNK_BYTES
    ensures WholeChunks(chunks, false) && WholeChunks(chunks + [chunk], false)
  {
  }

  lemma PrefixGrows(p: bytes, s: bytes, more: bytes)
    requires p <= s
    ensures p <= s + more
  {
  }

  // ---- every run ------------------------------------------------------------------------------

  datatype Call = Offer(pcm: bytes) | End | AbortInput | BadRate | Infer

  function AllOffered(calls: seq<Call>): bytes {
    if calls == [] then []
    else (if calls[0].Offer? then calls[0].pcm else []) + AllOffered(calls[1..])
  }

  lemma {:induction false} AllOfferedNext(calls: seq<Call>, i: nat)
    requires i < |calls|
    ensures AllOffered(calls[..i + 1]) ==
      AllOffered(calls[..i]) + if calls[i].Offer? then calls[i].pcm else []
  {
    assert calls[..i + 1][1..] == calls[1..][..i];
    if i > 0 {
      AllOfferedNext(calls[1..], i - 1);
      assert calls[..i][1..] == calls[1..][..i - 1];
    }
  }

  // Nothing goes wrong from here on, told from the calls alone: every offer is of whole
  // samples, in time and with room for its full chunks, the end has room for what is
  // left over, and nobody aborts or changes the rate.
  predicate Smooth(calls: seq<Call>, staged: nat, depth: nat, ended: bool, capacity: nat)
    decreases |calls|
  {
    calls == [] ||
    match calls[0]
    case Offer(pcm) =>
      if pcm == [] then Smooth(calls[1..], staged, depth, ended, capacity)
      else (
        && |pcm| % 2 == 0 && !ended && Room(staged + |pcm|, depth, capacity)
        && Smooth(calls[1..], (staged + |pcm|) % LOGICAL_CHUNK_BYTES,
                  depth + (staged + |pcm|) / LOGICAL_CHUNK_BYTES, ended, capacity))
    case End =>
      if ended || staged == 0 then Smooth(calls[1..], staged, depth, true, capacity)
      else (depth < capacity && Smooth(calls[1..], 0, depth + 1, true, capacity))
    case Infer => Smooth(calls[1..], staged, if depth == 0 then 0 else depth - 1, ended, capacity)
    case _ => false
  }

  // There is an end, and no abort before it.
  predicate Ends(calls: seq<Call>) {
    calls != [] &&
    var before := calls[..|calls| - 1];
    Ends(before) || (calls[|calls| - 1] == End && AbortInput !in before)
  }

  lemma {:induction false} EndsInside(calls: seq<Call>)
    ensures Ends(calls) ==> End in calls
    ensures End in calls && AbortInput !in calls ==> Ends(calls)
  {
    if calls != [] {
      EndsInside(calls[..|calls| - 1]);
    }
  }

  // The chunks handed on are a start of what was offered, in order, whole but for the
  // last when the input has ended. The input is spoiled exactly by calls that are not
  // smooth; smooth calls with an end hand on everything.
  method Serve(capacity: nat, calls: seq<Call>)
    returns (published: seq<bytes>, processed: seq<bytes>, spoiled: bool)
    ensures processed <= published && Concat(published) <= AllOffered(calls)
    ensures WholeChunks(published, !Ends(calls))
    ensures |published| - |processed| <= capacity
    ensures !spoiled <==> Smooth(calls, 0, 0, false, capacity)
    ensures Smooth(calls, 0, 0, false, capacity) && End in calls ==> Concat(published) == AllOffered(calls)
  {
    var w := new LiveMoonshineWorker(capacity);
    assert calls[0..] == calls;
    for i := 0 to |calls|
      invariant w.Valid() && fresh(w) && w.capacity == capacity
      invariant w.offered == AllOffered(calls[..i])
      invariant w.inputDone <==> End in calls[..i] || AbortInput in calls[..i]
      invariant w.ended == Ends(calls[..i])
      invariant w.GoesSmoothly(calls[i..]) == Smooth(calls, 0, 0, false, capacity)
    {
      AllOfferedNext(calls, i);
      assert calls[i..] == [calls[i]] + calls[i + 1..] && calls[..i + 1][..i] == calls[..i];
      EndsInside(calls[..i]);
      w.Do(calls[i], calls[i + 1..]);
    }
    assert calls[..|calls|] == calls;
    published, processed, spoiled := w.published, w.processed, w.spoiled;
  }
}
