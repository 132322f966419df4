/** The replay ring: a byte-bounded suffix of the published history. */
module HubRing {
  import opened Wrappers
  import opened HubModel

  lemma {:induction false} SumLenConcat(a: seq<Chunk>, b: seq<Chunk>)
    ensures SumLen(a + b) == SumLen(a) + SumLen(b)
  {
    hide ChunkLen;
    if a == [] {
      assert a + b == b;
    } else {
      SumLenConcat(a[1..], b);
      assert (a + b)[1..] == a[1..] + b;
    }
  }

  lemma SumLenOne(p: Chunk)
    ensures SumLen([p]) == ChunkLen(p)
  {
    assert [p][1..] == [];
  }

  /** A longer suffix weighs at least as much. */
  lemma SumLenSuffix(cs: seq<Chunk>, i: nat, j: nat)
    requires i <= j <= |cs|
    ensures SumLen(cs[j..]) <= SumLen(cs[i..])
  {
    assert cs[i..] == cs[i..j] + cs[j..];
    SumLenConcat(cs[i..j], cs[j..]);
  }

  /** Eviction removes chunks from the front, and never one more than it must. */
  lemma {:induction false} FitIsSuffix(ring: seq<Chunk>, cap: nat)
    ensures |Fit(ring, cap)| <= |ring|
    ensures Fit(ring, cap) == ring[|ring| - |Fit(ring, cap)|..]
    ensures SumLen(Fit(ring, cap)) <= cap
    ensures |Fit(ring, cap)| < |ring| ==> SumLen(ring[|ring| - |Fit(ring, cap)| - 1..]) > cap
  {
    hide ChunkLen;
    if SumLen(ring) > cap {
      FitIsSuffix(ring[1..], cap);
      var n := |Fit(ring, cap)|;
      assert ring[1..][|ring| - 1 - n..] == ring[|ring| - n..];
      if n < |ring| - 1 {
        assert ring[1..][|ring| - 1 - n - 1..] == ring[|ring| - n - 1..];
      } else {
        assert ring[0..] == ring;
      }
    }
  }

  lemma {:induction false} AfterSnoc(ring: seq<Chunk>, p: Chunk, since: nat)
    ensures After(ring + [p], since) == After(ring, since) + if p.seqNo > since then [p] else []
  {
    if ring == [] {
      assert (ring + [p])[1..] == [];
    } else {
      AfterSnoc(ring[1..], p, since);
      assert (ring + [p])[1..] == ring[1..] + [p];
    }
  }

  /**
   The ring is a suffix of what was published since the last close, it fits its budget, and
   the chunk just before it did not.
   */
  ghost predicate RingOk(h: Hub) {
    && h.closedAt + |h.ring| <= |h.history|
    && h.ring == h.history[Evicted(h)..]
    && SumLen(h.ring) <= h.config.ringBytes
    && (h.closedAt < Evicted(h) ==> SumLen(h.history[Evicted(h) - 1..]) > h.config.ringBytes)
  }

  lemma PublishKeepsRing(h: Hub, p: Chunk)
    requires RingOk(h)
    ensures RingOk(PublishChunk(h, p))
  {
    hide Fit, SumLen, Deliver;
    var h' := PublishChunk(h, p);
    var pushed := h.ring + [p];
    var ev := Evicted(h);
    FitIsSuffix(pushed, h.config.ringBytes);
    assert pushed == h'.history[ev..];
    var drop := |pushed| - |h'.ring|;
    assert pushed[drop..] == h'.history[ev + drop..];
    if drop > 0 {
      assert pushed[drop - 1..] == h'.history[ev + drop - 1..];
    } else if ev > h.closedAt {
      assert h'.history[ev - 1..] == h.history[ev - 1..] + [p];
      SumLenConcat(h.history[ev - 1..], [p]);
    }
  }

  /** The ring is the longest suffix of the history since the last close whose bytes fit the budget. */
  lemma RingIsLongestFittingSuffix(h: Hub, from: nat)
    requires RingOk(h) && h.closedAt <= from <= |h.history|
    ensures SumLen(h.history[from..]) <= h.config.ringBytes <==> from >= Evicted(h)
  {
    if from >= Evicted(h) {
      assert h.history[Evicted(h)..] == h.ring;
      SumLenSuffix(h.history, Evicted(h), from);
    } else {
      SumLenSuffix(h.history, from, Evicted(h) - 1);
    }
  }

  /** Filtering consecutive numbers is cutting. */
  lemma {:induction false} AfterCuts(ring: seq<Chunk>, first: nat, since: nat)
    requires forall k :: 0 <= k < |ring| ==> ring[k].seqNo == first + k
    ensures After(ring, since) ==
            if since < first then ring else if since - first + 1 <= |ring| then ring[since - first + 1..] else []
  {
    if ring != [] {
      assert forall k :: 0 <= k < |ring[1..]| ==> ring[1..][k].seqNo == first + 1 + k;
      AfterCuts(ring[1..], first + 1, since);
      if since < first {
        assert [ring[0]] + ring[1..] == ring;
      }
    }
  }

  /** The chunks numbered `fromSeq` or later. */
  function From(ring: seq<Chunk>, fromSeq: nat): seq<Chunk> {
    if ring == [] then []
    else if ring[0].seqNo < fromSeq then From(ring[1..], fromSeq)
    else ring
  }

  ghost predicate Consecutive(ring: seq<Chunk>) {
    forall j, k :: 0 <= j < k < |ring| ==> ring[k].seqNo == ring[j].seqNo + (k - j)
  }

  /** The shortest prefix that reaches the budget, or everything when nothing does. */
  function Cover(cs: seq<Chunk>, budget: nat): seq<Chunk> {
    if cs == [] || budget == 0 then []
    else [cs[0]] + Cover(cs[1..], SaturatingSub(budget, ChunkLen(cs[0])))
  }

  /** Skipping old chunks one by one is cutting the ring once. */
  lemma {:induction false} ReplayCuts(ring: seq<Chunk>, fromSeq: nat, budget: nat)
    requires Consecutive(ring)
    ensures Replay(ring, fromSeq, budget) == Cover(From(ring, fromSeq), budget)
  {
    hide ChunkLen;
    if ring != [] {
      if ring[0].seqNo < fromSeq {
        ReplayCuts(ring[1..], fromSeq, budget);
      } else if budget > 0 {
        ReplayCuts(ring[1..], fromSeq, SaturatingSub(budget, ChunkLen(ring[0])));
        assert |ring| > 1 ==> ring[1].seqNo == ring[0].seqNo + 1;
      }
    }
  }

  lemma {:induction false} CoverIsShortest(cs: seq<Chunk>, budget: nat)
    ensures |Cover(cs, budget)| <= |cs| && Cover(cs, budget) == cs[..|Cover(cs, budget)|]
    ensures Cover(cs, budget) != [] ==> SumLen(cs[..|Cover(cs, budget)| - 1]) < budget
    ensures SumLen(Cover(cs, budget)) < budget ==> Cover(cs, budget) == cs
  {
    hide ChunkLen;
    if cs != [] && budget > 0 {
      var left := SaturatingSub(budget, ChunkLen(cs[0]));
      var tail := Cover(cs[1..], left);
      CoverIsShortest(cs[1..], left);
      var out := [cs[0]] + tail;
      assert out[1..] == tail;
      assert out == cs[..1 + |tail|];
      if tail != [] {
        var front := cs[..|tail|];
        assert front[1..] == cs[1..][..|tail| - 1];
      }
    }
  }

  lemma SumLenPrefix(cs: seq<Chunk>, i: nat, j: nat)
    requires i <= j <= |cs|
    ensures SumLen(cs[..i]) <= SumLen(cs[..j])
  {
    assert cs[..j] == cs[..i] + cs[i..j];
    SumLenConcat(cs[..i], cs[i..j]);
  }

  /** Where a replay from the ring stops, and what its bytes are worth. */
  ghost predicate ReachesExactly(cs: seq<Chunk>, budget: nat) {
    SumLen(cs) < budget || exists n: nat :: n <= |cs| && SumLen(cs[..n]) == budget
  }

  /**
   A replay request returns the ring's chunks from `fromSeq` on, in order, up to and including
   the first that reaches the byte budget. It therefore stays within the budget exactly when
   some run of those chunks reaches the budget on the dot or all of them fall short of it.
   */
  lemma ReplayCovers(ring: seq<Chunk>, fromSeq: nat, budget: nat)
    requires Consecutive(ring)
    ensures var wanted, out := From(ring, fromSeq), Replay(ring, fromSeq, budget);
            out <= wanted &&
            (out != [] ==> SumLen(wanted[..|out| - 1]) < budget) &&
            (SumLen(out) < budget ==> out == wanted) &&
            (SumLen(out) <= budget <==> ReachesExactly(wanted, budget))
  {
    hide SumLen, Cover, From, Replay;
    ReplayCuts(ring, fromSeq, budget);
    var wanted := From(ring, fromSeq);
    var out := Cover(wanted, budget);
    CoverIsShortest(wanted, budget);
    if n: nat :| n <= |wanted| && SumLen(wanted[..n]) == budget {
      if SumLen(out) > budget {
        if n < |out| {
          SumLenPrefix(wanted, n, |out| - 1);
        } else {
          SumLenPrefix(wanted, |out|, n);
        }
      }
    }
    assert wanted[..|wanted|] == wanted;
    SumLenPrefix(wanted, |out|, |wanted|);
  }

  /** What a replay from a number wants is what a subscription since the number before is caught up with. */
  lemma {:induction false} FromIsAfter(ring: seq<Chunk>, fromSeq: nat)
    requires Consecutive(ring) && (ring != [] ==> ring[0].seqNo > 0)
    ensures From(ring, fromSeq) == After(ring, SaturatingSub(fromSeq, 1))
  {
    if ring != [] {
      assert |ring| > 1 ==> ring[1].seqNo == ring[0].seqNo + 1;
      FromIsAfter(ring[1..], fromSeq);
      assert ring[0].seqNo >= fromSeq ==> From(ring[1..], fromSeq) == ring[1..];
      assert [ring[0]] + ring[1..] == ring;
    }
  }
}
