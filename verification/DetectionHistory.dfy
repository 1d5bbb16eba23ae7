/**
  The stored rows of one key are the run-length encoding of its trigger history: the incremental
  create / repeat / recover logic refines a left-to-right encoder, over every sequence of runs.
 */
module DetectionHistory {
  import opened Wrappers
  import opened Deduplication
  import opened DetectionRun

  // ---------------------------------------------------------------- maximal blocks

  datatype Block = Block(start: nat, length: nat)

  function Leading(ts: seq<bool>): (n: nat)
    ensures n <= |ts|
    ensures forall i :: 0 <= i < n ==> ts[i]
    ensures n < |ts| ==> !ts[n]
  {
    if ts == [] || !ts[0] then 0 else 1 + Leading(ts[1..])
  }

  /** The textbook encoder: skip what did not trigger, then take the longest triggered stretch. */
  function Blocks(ts: seq<bool>, offset: nat): seq<Block>
    decreases |ts|
  {
    if ts == [] then []
    else if !ts[0] then Blocks(ts[1..], offset + 1)
    else
      var n := Leading(ts);
      [Block(offset, n)] + Blocks(ts[n..], offset + n)
  }

  /** A stretch of triggers that cannot be extended on either side. */
  ghost predicate Maximal(ts: seq<bool>, i: nat, j: nat) {
    && i < j <= |ts|
    && (forall k :: i <= k < j ==> ts[k])
    && (i == 0 || !ts[i - 1])
    && (j == |ts| || !ts[j])
  }

  lemma MaximalSkips(ts: seq<bool>, n: nat, i: nat, j: nat)
    requires n < |ts| && !ts[n] && n <= i
    ensures Maximal(ts, i, j) <==> j >= n && Maximal(ts[n..], i - n, j - n)
  {
    if Maximal(ts, i, j) {
      assert ts[i];
      forall k | i - n <= k < j - n ensures ts[n..][k] {
        assert ts[k + n];
      }
    }
    if j >= n && Maximal(ts[n..], i - n, j - n) {
      forall k | i <= k < j ensures ts[k] {
        assert ts[n..][k - n];
      }
    }
  }

  lemma MaximalFromStart(ts: seq<bool>, i: nat, j: nat)
    requires ts != [] && ts[0] && i < Leading(ts)
    ensures Maximal(ts, i, j) <==> i == 0 && j == Leading(ts)
  {
    assert i > 0 ==> ts[i - 1];
    assert j < Leading(ts) ==> ts[j];
  }

  ghost predicate Within(bs: seq<Block>, low: nat, high: nat) {
    forall b :: b in bs ==> b.start >= low && b.length > 0 && b.start + b.length <= high
  }

  ghost predicate Spaced(bs: seq<Block>) {
    forall p, q :: 0 <= p < q < |bs| ==> bs[p].start + bs[p].length < bs[q].start
  }

  lemma SpacedWithHead(b: Block, rest: seq<Block>, high: nat)
    requires b.length > 0 && b.start + b.length <= high
    requires Spaced(rest) && Within(rest, b.start + b.length + 1, high)
    ensures Spaced([b] + rest) && Within([b] + rest, b.start, high)
  {
    forall p, q | 0 <= p < q < |[b] + rest| ensures ([b] + rest)[p].start + ([b] + rest)[p].length < ([b] + rest)[q].start {
      assert ([b] + rest)[q] == rest[q - 1] && rest[q - 1] in rest;
      assert p > 0 ==> ([b] + rest)[p] == rest[p - 1];
    }
  }

  /** One turn of the encoder; what follows a stretch starts with a position that did not trigger. */
  lemma BlocksUnrolled(ts: seq<bool>, offset: nat)
    requires ts != []
    ensures !ts[0] ==> Blocks(ts, offset) == Blocks(ts[1..], offset + 1)
    ensures ts[0] ==> Leading(ts) > 0 && Blocks(ts, offset) == [Block(offset, Leading(ts))] + Blocks(ts[Leading(ts)..], offset + Leading(ts))
    ensures ts[0] && Leading(ts) < |ts| ==>
              Blocks(ts[Leading(ts)..], offset + Leading(ts)) == Blocks(ts[Leading(ts) + 1..], offset + Leading(ts) + 1)
    ensures ts[0] && Leading(ts) == |ts| ==> Blocks(ts, offset) == [Block(offset, |ts|)]
  {
    if ts[0] && Leading(ts) < |ts| {
      assert ts[Leading(ts)..][1..] == ts[Leading(ts) + 1..];
    }
    if ts[0] && Leading(ts) == |ts| {
      assert ts[|ts|..] == [];
    }
  }

  lemma NothingSpaced(low: nat, high: nat)
    ensures Spaced([]) && Within([], low, high)
  {
  }

  lemma WithinWider(bs: seq<Block>, low: nat, lower: nat, high: nat)
    requires Within(bs, low, high) && lower <= low
    ensures Within(bs, lower, high)
  {
  }

  lemma {:induction false} BlocksAreSpaced(ts: seq<bool>, offset: nat)
    ensures Within(Blocks(ts, offset), offset, offset + |ts|) && Spaced(Blocks(ts, offset))
    decreases |ts|
  {
    if ts == [] {
      NothingSpaced(offset, offset);
    } else {
      BlocksUnrolled(ts, offset);
      hide Blocks, Within, Spaced, Leading;
      var n := Leading(ts);
      if !ts[0] {
        BlocksAreSpaced(ts[1..], offset + 1);
        WithinWider(Blocks(ts, offset), offset + 1, offset, offset + |ts|);
      } else if n < |ts| {
        BlocksAreSpaced(ts[n + 1..], offset + n + 1);
        SpacedWithHead(Block(offset, n), Blocks(ts[n..], offset + n), offset + |ts|);
      } else {
        NothingSpaced(offset + n + 1, offset + |ts|);
        SpacedWithHead(Block(offset, n), [], offset + |ts|);
        assert [Block(offset, n)] + [] == [Block(offset, n)];
      }
    }
  }

  lemma {:induction false} BlocksStartLater(ts: seq<bool>, offset: nat)
    ensures forall b :: b in Blocks(ts, offset) ==> b.start >= offset && b.length > 0 && b.start + b.length <= offset + |ts|
    ensures forall p, q :: 0 <= p < q < |Blocks(ts, offset)| ==>
              Blocks(ts, offset)[p].start + Blocks(ts, offset)[p].length < Blocks(ts, offset)[q].start
  {
    hide Blocks;
    BlocksAreSpaced(ts, offset);
  }

  /** The first stretch, put before the stretches of what follows it. */
  lemma MaximalWithHead(ts: seq<bool>, offset: nat, rest: seq<Block>, i: nat, j: nat)
    requires ts != [] && ts[0] && i < j
    requires forall b :: b in rest ==> b.start >= offset + Leading(ts)
    requires Leading(ts) == |ts| ==> rest == []
    requires Leading(ts) <= i && Leading(ts) < |ts| ==>
               (Block(offset + i, j - i) in rest <==> Maximal(ts[Leading(ts)..], i - Leading(ts), j - Leading(ts)))
    ensures Block(offset + i, j - i) in [Block(offset, Leading(ts))] + rest <==> Maximal(ts, i, j)
  {
    hide Leading;
    var n := Leading(ts);
    if i < n {
      MaximalFromStart(ts, i, j);
    } else if n < |ts| {
      MaximalSkips(ts, n, i, j);
    }
  }

  lemma NoneAtQuietStart(ts: seq<bool>, offset: nat, j: nat)
    requires ts != [] && !ts[0] && j > 0
    ensures Block(offset, j) !in Blocks(ts, offset) && !Maximal(ts, 0, j)
  {
    BlocksUnrolled(ts, offset);
    BlocksStartLater(ts[1..], offset + 1);
  }

  /** The encoder lists exactly the maximal stretches, each once and in order (see `BlocksAreSpaced`). */
  lemma {:induction false} BlocksAreTheMaximalOnes(ts: seq<bool>, offset: nat, i: nat, j: nat)
    requires i < j
    ensures Block(offset + i, j - i) in Blocks(ts, offset) <==> Maximal(ts, i, j)
    decreases |ts|
  {
    if ts != [] {
      BlocksUnrolled(ts, offset);
      hide Blocks, Maximal, Leading;
      var n := Leading(ts);
      if !ts[0] && i == 0 {
        NoneAtQuietStart(ts, offset, j);
      } else if !ts[0] {
        BlocksAreTheMaximalOnes(ts[1..], offset + 1, i - 1, j - 1);
        MaximalShift(ts, i, j);
      } else {
        var rest := Blocks(ts[n..], offset + n);
        BlocksStartLater(ts[n..], offset + n);
        if n < |ts| && n <= i {
          BlocksAreTheMaximalOnes(ts[n..], offset + n, i - n, j - n);
          assert Block(offset + n + (i - n), (j - n) - (i - n)) == Block(offset + i, j - i);
        }
        assert n == |ts| ==> rest == [];
        MaximalWithHead(ts, offset, rest, i, j);
      }
    }
  }

  lemma MaximalShift(ts: seq<bool>, i: nat, j: nat)
    requires ts != [] && !ts[0] && 0 < i < j
    ensures Maximal(ts, i, j) <==> Maximal(ts[1..], i - 1, j - 1)
  {
    if Maximal(ts, i, j) {
      forall k | i - 1 <= k < j - 1 ensures ts[1..][k] {
        assert ts[k + 1];
      }
    }
    if Maximal(ts[1..], i - 1, j - 1) {
      forall k | i <= k < j ensures ts[k] {
        assert ts[1..][k - 1];
      }
    }
  }

  // ---------------------------------------------------------------- the encoder, one observation later

  lemma {:induction false} LeadingSnoc(ts: seq<bool>, t: bool)
    ensures Leading(ts + [t]) == if Leading(ts) == |ts| && t then |ts| + 1 else Leading(ts)
  {
    if ts != [] && ts[0] {
      LeadingSnoc(ts[1..], t);
      assert (ts + [t])[1..] == ts[1..] + [t];
    }
  }

  lemma {:induction false} BlocksSnocQuiet(ts: seq<bool>, offset: nat)
    ensures Blocks(ts + [false], offset) == Blocks(ts, offset)
    decreases |ts|
  {
    if ts == [] {
      assert Blocks([false], offset) == Blocks([false][1..], offset + 1);
    } else if !ts[0] {
      assert (ts + [false])[1..] == ts[1..] + [false];
      BlocksSnocQuiet(ts[1..], offset + 1);
    } else {
      var n := Leading(ts);
      LeadingSnoc(ts, false);
      assert (ts + [false])[n..] == ts[n..] + [false];
      BlocksSnocQuiet(ts[n..], offset + n);
    }
  }

  ghost predicate EndsAt(bs: seq<Block>, end: nat) {
    bs != [] && bs[|bs| - 1].start + bs[|bs| - 1].length == end
  }

  function ExtendLast(bs: seq<Block>): seq<Block>
    requires bs != []
  {
    var m := |bs| - 1;
    bs[m := bs[m].(length := bs[m].length + 1)]
  }

  /** The encoding after one more trigger, from the encoding before it. */
  function AfterTrigger(ts: seq<bool>, bs: seq<Block>, offset: nat): seq<Block>
    requires EndsAt(bs, offset + |ts|) || ts == [] || !ts[|ts| - 1]
  {
    if ts != [] && ts[|ts| - 1] then ExtendLast(bs) else bs + [Block(offset + |ts|, 1)]
  }

  lemma AfterTriggerWithHead(ts: seq<bool>, n: nat, rest: seq<Block>, offset: nat)
    requires 0 < n < |ts|
    requires ts[n..][|ts[n..]| - 1] ==> EndsAt(rest, offset + n + |ts[n..]|)
    ensures ts[|ts| - 1] ==> EndsAt([Block(offset, n)] + rest, offset + |ts|)
    ensures AfterTrigger(ts, [Block(offset, n)] + rest, offset) == [Block(offset, n)] + AfterTrigger(ts[n..], rest, offset + n)
  {
    assert ts[n..][|ts[n..]| - 1] == ts[|ts| - 1];
    if ts[|ts| - 1] {
      var bs := [Block(offset, n)] + rest;
      assert bs[|bs| - 1] == rest[|rest| - 1];
    }
  }

  lemma AllTriggers(ts: seq<bool>, offset: nat)
    requires ts != [] && Leading(ts) == |ts|
    ensures Blocks(ts, offset) == [Block(offset, |ts|)]
  {
    assert ts[|ts|..] == [];
  }

  ghost predicate SnocTrigger(ts: seq<bool>, offset: nat) {
    && (ts != [] && ts[|ts| - 1] ==> EndsAt(Blocks(ts, offset), offset + |ts|))
    && Blocks(ts + [true], offset) == AfterTrigger(ts, Blocks(ts, offset), offset)
  }

  lemma SnocTriggerQuietHead(ts: seq<bool>, offset: nat)
    requires ts != [] && !ts[0] && SnocTrigger(ts[1..], offset + 1)
    ensures SnocTrigger(ts, offset)
  {
    assert (ts + [true])[1..] == ts[1..] + [true];
    assert |ts| > 1 ==> ts[1..][|ts| - 2] == ts[|ts| - 1];
    assert Blocks(ts, offset) == Blocks(ts[1..], offset + 1);
  }

  lemma BlocksHead(ts: seq<bool>, offset: nat, t: bool)
    requires ts != [] && ts[0] && Leading(ts) < |ts|
    ensures Blocks(ts + [t], offset) == [Block(offset, Leading(ts))] + Blocks(ts[Leading(ts)..] + [t], offset + Leading(ts))
  {
    LeadingSnoc(ts, t);
    assert (ts + [t])[Leading(ts)..] == ts[Leading(ts)..] + [t];
  }

  lemma BlocksOfHead(ts: seq<bool>, offset: nat)
    requires ts != [] && ts[0]
    ensures Blocks(ts, offset) == [Block(offset, Leading(ts))] + Blocks(ts[Leading(ts)..], offset + Leading(ts))
  {
  }

  lemma {:induction false} SnocTriggerHead(ts: seq<bool>, offset: nat, n: nat, tail: seq<bool>)
    requires ts != [] && ts[0] && n == Leading(ts) < |ts| && tail == ts[n..]
    requires SnocTrigger(tail, offset + n)
    ensures SnocTrigger(ts, offset)
  {
    hide Leading;
    BlocksHead(ts, offset, true);
    BlocksOfHead(ts, offset);
    var rest := Blocks(tail, offset + n);
    AfterTriggerWithHead(ts, n, rest, offset);
    assert Blocks(ts, offset) == [Block(offset, n)] + rest;
    assert Blocks(ts + [true], offset) == [Block(offset, n)] + AfterTrigger(tail, rest, offset + n);
  }

  lemma {:induction false} BlocksSnocTrigger(ts: seq<bool>, offset: nat)
    ensures SnocTrigger(ts, offset)
    decreases |ts|
  {
    LeadingSnoc(ts, true);
    if ts == [] {
      AllTriggers([true], offset);
      assert ts + [true] == [true];
    } else if !ts[0] {
      BlocksSnocTrigger(ts[1..], offset + 1);
      SnocTriggerQuietHead(ts, offset);
    } else if Leading(ts) == |ts| {
      AllTriggers(ts, offset);
      AllTriggers(ts + [true], offset);
      assert ts[|ts| - 1];
    } else {
      BlocksSnocTrigger(ts[Leading(ts)..], offset + Leading(ts));
      SnocTriggerHead(ts, offset, Leading(ts), ts[Leading(ts)..]);
    }
  }

  /** A stretch reaching the end means the last evaluation triggered. */
  lemma EndsAtMeansTrigger(ts: seq<bool>)
    requires EndsAt(Blocks(ts, 0), |ts|)
    ensures ts != [] && ts[|ts| - 1]
  {
    var bs := Blocks(ts, 0);
    BlocksStartLater(ts, 0);
    var b := bs[|bs| - 1];
    BlocksAreTheMaximalOnes(ts, 0, b.start, b.start + b.length);
    assert Block(0 + b.start, b.start + b.length - b.start) == b;
    assert Maximal(ts, b.start, b.start + b.length);
  }

  // ---------------------------------------------------------------- the rows the encoding stands for

  function Triggers(es: seq<Evaluation>): (ts: seq<bool>)
    ensures |ts| == |es|
    ensures forall i :: 0 <= i < |es| ==> ts[i] == es[i].triggered
  {
    seq(|es|, i requires 0 <= i < |es| => es[i].triggered)
  }

  /**
    The row of a block: made by its first evaluation, counting its length, last seen at its last one, and
    recovered by the evaluation that ended it (still open when nothing has).
   */
  function BlockRow(es: seq<Evaluation>, b: Block): Row
    requires b.length > 0 && b.start + b.length <= |es|
  {
    var end := b.start + b.length;
    var open := end == |es|;
    var last := es[end - 1];
    es[b.start].created.(
      summary := Summary(Some(open), Some(b.length), if open then None else Some(es[end].clock),
                         if b.length == 1 then None else Some(last.clock), Some(last.windowEnd)),
      updatedAt := if open then last.clock else es[end].clock)
  }

  function BlockRows(es: seq<Evaluation>, bs: seq<Block>): (rows: seq<Row>)
    requires forall b :: b in bs ==> b.length > 0 && b.start + b.length <= |es|
    ensures |rows| == |bs|
    ensures forall i :: 0 <= i < |bs| ==> rows[i] == BlockRow(es, bs[i])
  {
    seq(|bs|, i requires 0 <= i < |bs| => BlockRow(es, bs[i]))
  }

  function EncodedRows(es: seq<Evaluation>): seq<Row> {
    BlocksStartLater(Triggers(es), 0);
    BlockRows(es, Blocks(Triggers(es), 0))
  }

  // ---------------------------------------------------------------- the incremental logic

  function Steps(key: Key, es: seq<Evaluation>): seq<Row> {
    if es == [] then [] else Step(Steps(key, es[..|es| - 1]), key, es[|es| - 1])
  }

  /** Evaluations of one key, in time order. */
  ghost predicate Chronicle(key: Key, es: seq<Evaluation>) {
    && (forall i :: 0 <= i < |es| ==> Stamped(es[i], key))
    && (forall i, j :: 0 <= i < j < |es| ==> es[i].clock < es[j].clock)
  }

  lemma NewestIsLast(rows: seq<Row>, key: Key)
    requires rows != []
    requires forall i :: 0 <= i < |rows| ==> Candidate(rows[i], key)
    requires forall i, j :: 0 <= i < j < |rows| ==> rows[i].detectedAt < rows[j].detectedAt
    ensures FindOpen(rows, key) == Some(|rows| - 1)
  {
    var n := |rows| - 1;
    var before := FindOpen(rows[..n], key);
    if before.Some? {
      assert rows[..n][before.value] == rows[before.value];
    }
  }

  /** What a step does to rows that are all active and in time order: only the last one matters. */
  lemma StepAtLast(rows: seq<Row>, key: Key, e: Evaluation)
    requires forall i :: 0 <= i < |rows| ==> Candidate(rows[i], key)
    requires forall i, j :: 0 <= i < j < |rows| ==> rows[i].detectedAt < rows[j].detectedAt
    ensures
      var n := |rows| - 1;
      var open := rows != [] && IsStillOpen(rows[n]);
      Step(rows, key, e)
      == if open && e.triggered then rows[n := Repeated(rows[n], e.clock, e.windowEnd)]
         else if open then rows[n := Recovered(rows[n], e.clock)]
         else if e.triggered then rows + [e.created]
         else rows
  {
    if rows != [] {
      NewestIsLast(rows, key);
    }
  }

  /** Blocks that fit the history and are separated by at least one quiet evaluation. */
  ghost predicate Separated(bs: seq<Block>, size: nat) {
    && (forall b :: b in bs ==> b.length > 0 && b.start + b.length <= size)
    && (forall p, q :: 0 <= p < q < |bs| ==> bs[p].start + bs[p].length < bs[q].start)
  }

  lemma BlockRowsAreOrdered(key: Key, es: seq<Evaluation>, bs: seq<Block>)
    requires Chronicle(key, es) && Separated(bs, |es|)
    ensures
      var rows := BlockRows(es, bs);
      && (forall i :: 0 <= i < |rows| ==> Candidate(rows[i], key))
      && (forall i, j :: 0 <= i < j < |rows| ==> rows[i].detectedAt < rows[j].detectedAt)
  {
    forall i | 0 <= i < |bs| ensures Candidate(BlockRow(es, bs[i]), key) {
      assert Stamped(es[bs[i].start], key);
    }
    forall i, j | 0 <= i < j < |bs| ensures BlockRow(es, bs[i]).detectedAt < BlockRow(es, bs[j]).detectedAt {
      assert Stamped(es[bs[i].start], key) && Stamped(es[bs[j].start], key);
    }
  }

  /** A block that ended before the end of the history stands for the same row in every longer history. */
  lemma EndedBlockRow(es: seq<Evaluation>, e: Evaluation, b: Block)
    requires b.length > 0 && b.start + b.length < |es|
    ensures BlockRow(es + [e], b) == BlockRow(es, b) && !IsStillOpen(BlockRow(es, b))
  {
  }

  /** One evaluation later only the last row can differ. */
  lemma RowsUpToLast(es: seq<Evaluation>, e: Evaluation, bs: seq<Block>, last: Block)
    requires bs != [] && Separated(bs, |es|)
    requires last.start == bs[|bs| - 1].start && 0 < last.length && last.start + last.length <= |es| + 1
    ensures Separated(bs[|bs| - 1 := last], |es| + 1)
    ensures BlockRows(es + [e], bs[|bs| - 1 := last]) == BlockRows(es, bs)[|bs| - 1 := BlockRow(es + [e], last)]
  {
    hide BlockRow;
    var m := |bs| - 1;
    var bs' := bs[m := last];
    assert forall b :: b in bs' ==> b in bs || b == last;
    forall i | 0 <= i < m ensures BlockRow(es + [e], bs'[i]) == BlockRow(es, bs[i]) {
      assert bs[i].start + bs[i].length < bs[m].start;
      assert bs[m] in bs;
      EndedBlockRow(es, e, bs[i]);
    }
  }

  /** The open block, one evaluation later: closed by a quiet one, longer after a trigger. */
  lemma OpenBlockRow(key: Key, es: seq<Evaluation>, e: Evaluation, b: Block)
    requires Chronicle(key, es)
    requires b.length > 0 && b.start + b.length == |es|
    ensures IsStillOpen(BlockRow(es, b))
    ensures BlockRow(es + [e], b) == Recovered(BlockRow(es, b), e.clock)
    ensures BlockRow(es + [e], b.(length := b.length + 1)) == Repeated(BlockRow(es, b), e.clock, e.windowEnd)
  {
    assert (es + [e])[b.start] == es[b.start];
    assert (es + [e])[|es| - 1] == es[|es| - 1];
    assert (es + [e])[|es|] == e;
  }

  lemma NewBlockRow(key: Key, es: seq<Evaluation>, e: Evaluation)
    requires Stamped(e, key)
    ensures BlockRow(es + [e], Block(|es|, 1)) == e.created
  {
    assert (es + [e])[|es|] == e;
  }

  /** Encoding one more quiet evaluation: the last block closes if it was still open; nothing else moves. */
  lemma EncodeQuiet(key: Key, es: seq<Evaluation>, e: Evaluation, bs: seq<Block>)
    requires Chronicle(key, es) && !e.triggered
    requires Separated(bs, |es|)
    ensures BlockRows(es + [e], bs) == Step(BlockRows(es, bs), key, e)
  {
    hide Blocks, Step, BlockRow;
    BlockRowsAreOrdered(key, es, bs);
    StepAtLast(BlockRows(es, bs), key, e);
    if bs != [] {
      var last := bs[|bs| - 1];
      assert last in bs;
      RowsUpToLast(es, e, bs, last);
      assert bs[|bs| - 1 := last] == bs;
      if last.start + last.length == |es| {
        OpenBlockRow(key, es, e, last);
      } else {
        EndedBlockRow(es, e, last);
      }
    }
  }

  /** Encoding one more trigger: the open block grows, or a new one starts. */
  lemma EncodeGrowth(key: Key, es: seq<Evaluation>, e: Evaluation, bs: seq<Block>)
    requires Chronicle(key, es) && e.triggered
    requires Separated(bs, |es|) && EndsAt(bs, |es|)
    ensures Separated(ExtendLast(bs), |es| + 1)
    ensures BlockRows(es + [e], ExtendLast(bs)) == Step(BlockRows(es, bs), key, e)
  {
    hide Blocks, Step, BlockRow;
    BlockRowsAreOrdered(key, es, bs);
    StepAtLast(BlockRows(es, bs), key, e);
    var last := bs[|bs| - 1];
    RowsUpToLast(es, e, bs, last.(length := last.length + 1));
    OpenBlockRow(key, es, e, last);
  }

  lemma EncodeStart(key: Key, es: seq<Evaluation>, e: Evaluation, bs: seq<Block>)
    requires Chronicle(key, es) && Stamped(e, key) && e.triggered
    requires Separated(bs, |es|) && !EndsAt(bs, |es|)
    ensures Separated(bs + [Block(|es|, 1)], |es| + 1)
    ensures BlockRows(es + [e], bs + [Block(|es|, 1)]) == Step(BlockRows(es, bs), key, e)
  {
    hide Blocks, Step, BlockRow;
    BlockRowsAreOrdered(key, es, bs);
    StepAtLast(BlockRows(es, bs), key, e);
    AllEnded(es, e, bs);
    NewBlockRow(key, es, e);
  }

  lemma AllEnded(es: seq<Evaluation>, e: Evaluation, bs: seq<Block>)
    requires Separated(bs, |es|) && !EndsAt(bs, |es|)
    ensures Separated(bs + [Block(|es|, 1)], |es| + 1)
    ensures BlockRows(es + [e], bs + [Block(|es|, 1)]) == BlockRows(es, bs) + [BlockRow(es + [e], Block(|es|, 1))]
    ensures bs != [] ==> !IsStillOpen(BlockRows(es, bs)[|bs| - 1])
  {
    hide BlockRow;
    forall i | 0 <= i < |bs| ensures bs[i].length > 0 && bs[i].start + bs[i].length < |es| {
      assert bs[i] in bs;
      if i < |bs| - 1 {
        assert bs[i].start + bs[i].length < bs[|bs| - 1].start;
        assert bs[|bs| - 1] in bs;
      }
    }
    forall i | 0 <= i < |bs|
      ensures BlockRow(es + [e], bs[i]) == BlockRow(es, bs[i]) && !IsStillOpen(BlockRow(es, bs[i]))
    {
      EndedBlockRow(es, e, bs[i]);
    }
  }

  lemma {:induction false} StepsEncode(key: Key, es: seq<Evaluation>)
    requires Chronicle(key, es)
    ensures Steps(key, es) == EncodedRows(es)
  {
    if es == [] {
      assert Triggers(es) == [];
    } else {
      var n := |es| - 1;
      assert es == es[..n] + [es[n]];
      StepsEncode(key, es[..n]);
      EncodeOneMore(key, es[..n], es[n]);
    }
  }

  lemma EncodeOneMore(key: Key, es: seq<Evaluation>, e: Evaluation)
    requires Chronicle(key, es) && Stamped(e, key)
    ensures EncodedRows(es + [e]) == Step(EncodedRows(es), key, e)
  {
    var ts := Triggers(es);
    var bs := Blocks(ts, 0);
    assert Triggers(es + [e]) == ts + [e.triggered];
    BlocksStartLater(ts, 0);
    assert Separated(bs, |es|);
    if !e.triggered {
      BlocksSnocQuiet(ts, 0);
      EncodeQuiet(key, es, e, bs);
    } else {
      BlocksSnocTrigger(ts, 0);
      if ts != [] && ts[|ts| - 1] {
        EncodeGrowth(key, es, e, bs);
      } else {
        if EndsAt(bs, |ts|) {
          EndsAtMeansTrigger(ts);
        }
        EncodeStart(key, es, e, bs);
      }
    }
  }

  // ---------------------------------------------------------------- over whole sequences of runs

  function RunAll(runs: seq<RunInput>): seq<Row> {
    if runs == [] then [] else Run(runs[|runs| - 1], RunAll(runs[..|runs| - 1])).rows
  }

  function LiveEvaluation(run: RunInput, rows: seq<Row>, key: Key): (es: seq<Evaluation>)
    ensures |es| <= 1
    ensures es != [] ==> Stamped(es[0], key) && es[0].clock == run.clock && !run.dryRun
  {
    var e := Taken(run, rows, key);
    if run.dryRun || e.None? then [] else [e.value]
  }

  /** The evaluations of `key` that took effect, run after run; dry runs take none. */
  function Evaluations(runs: seq<RunInput>, key: Key): seq<Evaluation> {
    if runs == [] then []
    else
      var n := |runs| - 1;
      Evaluations(runs[..n], key) + LiveEvaluation(runs[n], RunAll(runs[..n]), key)
  }

  /** Runs as the scheduler issues them: sensors and rules listed once, clocks moving forward. */
  ghost predicate Scheduled(runs: seq<RunInput>) {
    && (forall i :: 0 <= i < |runs| ==> Distinct(runs[i]))
    && (forall i, j :: 0 <= i < j < |runs| && !runs[i].dryRun && !runs[j].dryRun ==> runs[i].clock < runs[j].clock)
  }

  lemma {:induction false} EvaluationsAreChronicle(runs: seq<RunInput>, key: Key, later: real)
    requires Scheduled(runs)
    requires forall i :: 0 <= i < |runs| && !runs[i].dryRun ==> runs[i].clock < later
    ensures Chronicle(key, Evaluations(runs, key))
    ensures forall e :: e in Evaluations(runs, key) ==> e.clock < later
  {
    hide LiveEvaluation, Chronicle;
    if runs == [] {
      NothingIsChronicle(key);
    } else {
      var n := |runs| - 1;
      var before, live := Evaluations(runs[..n], key), LiveEvaluation(runs[n], RunAll(runs[..n]), key);
      if live == [] {
        EvaluationsAreChronicle(runs[..n], key, later);
        assert before + live == before;
      } else {
        EvaluationsAreChronicle(runs[..n], key, runs[n].clock);
        ChronicleGrows(key, before, live[0]);
        assert live == [live[0]];
      }
    }
  }

  lemma NothingIsChronicle(key: Key)
    ensures Chronicle(key, [])
  {
  }

  lemma ChronicleGrows(key: Key, es: seq<Evaluation>, e: Evaluation)
    requires Chronicle(key, es) && Stamped(e, key) && forall d :: d in es ==> d.clock < e.clock
    ensures Chronicle(key, es + [e])
  {
  }

  lemma OneRunSteps(run: RunInput, rows: seq<Row>, key: Key, es: seq<Evaluation>)
    requires Distinct(run)
    requires KeyRows(rows, key) == Steps(key, es)
    ensures KeyRows(Run(run, rows).rows, key) == Steps(key, es + LiveEvaluation(run, rows, key))
  {
    var live := LiveEvaluation(run, rows, key);
    if run.dryRun {
      DrySensorsKeepRows(run, Start(run, rows), run.sensors);
      assert es + live == es;
    } else {
      RunFrame(run, rows, key);
      if live == [] {
        assert es + live == es;
      } else {
        assert (es + live)[..|es|] == es;
      }
    }
  }

  lemma {:induction false} RunAllSteps(runs: seq<RunInput>, key: Key)
    requires Scheduled(runs)
    ensures KeyRows(RunAll(runs), key) == Steps(key, Evaluations(runs, key))
  {
    if runs != [] {
      var n := |runs| - 1;
      RunAllSteps(runs[..n], key);
      OneRunSteps(runs[n], RunAll(runs[..n]), key, Evaluations(runs[..n], key));
    }
  }

  lemma SomeLaterClock(runs: seq<RunInput>) returns (later: real)
    ensures forall i :: 0 <= i < |runs| ==> runs[i].clock < later
  {
    later := 0.0;
    for i := 0 to |runs|
      invariant forall k :: 0 <= k < i ==> runs[k].clock < later
    {
      if runs[i].clock >= later {
        later := runs[i].clock + 1.0;
      }
    }
  }

  /**
    Run-length refinement: after any scheduled sequence of runs, the stored rows of a key are exactly the
    encoding of its trigger history.
   */
  lemma RowsEncodeHistory(runs: seq<RunInput>, key: Key)
    requires Scheduled(runs)
    ensures KeyRows(RunAll(runs), key) == EncodedRows(Evaluations(runs, key))
  {
    var later := SomeLaterClock(runs);
    EvaluationsAreChronicle(runs, key, later);
    RunAllSteps(runs, key);
    StepsEncode(key, Evaluations(runs, key));
  }

  // ---------------------------------------------------------------- reading the history back

  /** The row was open at time `t`. */
  predicate OpenAt(r: Row, t: real) {
    r.detectedAt <= t && (r.summary.recoveredAt.None? || t < r.summary.recoveredAt.value)
  }

  lemma StretchAround(ts: seq<bool>, k: nat) returns (i: nat, j: nat)
    requires k < |ts| && ts[k]
    ensures Maximal(ts, i, j) && i <= k < j
  {
    i, j := k, k + 1;
    while i > 0 && ts[i - 1]
      invariant i <= k && forall m :: i <= m < j ==> ts[m]
    {
      i := i - 1;
    }
    while j < |ts| && ts[j]
      invariant k < j <= |ts| && forall m :: i <= m < j ==> ts[m]
    {
      j := j + 1;
    }
  }

  /** Within a history, a row of the encoding is open at exactly the evaluations of its block. */
  lemma BlockOpenAt(key: Key, es: seq<Evaluation>, b: Block, k: nat)
    requires Chronicle(key, es) && k < |es|
    requires b.length > 0 && b.start + b.length <= |es|
    ensures OpenAt(BlockRow(es, b), es[k].clock) <==> b.start <= k < b.start + b.length
  {
    assert Stamped(es[b.start], key);
    if k < b.start {
      assert es[k].clock < es[b.start].clock;
    } else if b.start + b.length < |es| {
      assert es[b.start].clock <= es[k].clock;
    }
  }

  lemma {:induction false} TriggerHasItsRow(key: Key, es: seq<Evaluation>, k: nat) returns (p: nat)
    requires Chronicle(key, es) && k < |es| && es[k].triggered
    ensures p < |EncodedRows(es)| && OpenAt(EncodedRows(es)[p], es[k].clock)
  {
    hide Blocks, OpenAt, BlockRow;
    var ts := Triggers(es);
    BlocksStartLater(ts, 0);
    var i, j := StretchAround(ts, k);
    BlocksAreTheMaximalOnes(ts, 0, i, j);
    assert Block(0 + i, j - i) == Block(i, j - i);
    p :| 0 <= p < |Blocks(ts, 0)| && Blocks(ts, 0)[p] == Block(i, j - i);
    BlockOpenAt(key, es, Block(i, j - i), k);
  }

  lemma OpenRowMeansTrigger(key: Key, es: seq<Evaluation>, k: nat, p: nat)
    requires Chronicle(key, es) && k < |es|
    requires p < |EncodedRows(es)| && OpenAt(EncodedRows(es)[p], es[k].clock)
    ensures es[k].triggered
  {
    hide Blocks, OpenAt, BlockRow;
    var ts := Triggers(es);
    BlocksStartLater(ts, 0);
    var b := Blocks(ts, 0)[p];
    assert b in Blocks(ts, 0);
    BlockOpenAt(key, es, b, k);
    BlocksAreTheMaximalOnes(ts, 0, b.start, b.start + b.length);
    assert Block(0 + b.start, b.start + b.length - b.start) == b;
    assert ts[k];
  }

  lemma EncodingKeepsHistory(key: Key, es: seq<Evaluation>, k: nat)
    requires Chronicle(key, es) && k < |es|
    ensures es[k].triggered <==> exists r :: r in EncodedRows(es) && OpenAt(r, es[k].clock)
  {
    hide EncodedRows, OpenAt, Chronicle;
    if es[k].triggered {
      var p := TriggerHasItsRow(key, es, k);
      assert EncodedRows(es)[p] in EncodedRows(es);
    }
    forall p: nat | p < |EncodedRows(es)| && OpenAt(EncodedRows(es)[p], es[k].clock) ensures es[k].triggered {
      OpenRowMeansTrigger(key, es, k, p);
    }
  }

  /**
    Nothing of the history is lost: an evaluation triggered exactly when some stored row of the key was open
    at its clock.
   */
  lemma {:induction false} HistoryFromRows(runs: seq<RunInput>, key: Key, k: nat)
    requires Scheduled(runs) && k < |Evaluations(runs, key)|
    ensures Evaluations(runs, key)[k].triggered
       <==> exists r :: r in KeyRows(RunAll(runs), key) && OpenAt(r, Evaluations(runs, key)[k].clock)
  {
    var later := SomeLaterClock(runs);
    EvaluationsAreChronicle(runs, key, later);
    RowsEncodeHistory(runs, key);
    EncodingKeepsHistory(key, Evaluations(runs, key), k);
  }

  /** Every trigger is counted once: the repeat counts of a key add up to its triggered evaluations. */
  function TotalLength(bs: seq<Block>): nat {
    if bs == [] then 0 else bs[0].length + TotalLength(bs[1..])
  }

  function CountTriggers(ts: seq<bool>): nat {
    if ts == [] then 0 else (if ts[0] then 1 else 0) + CountTriggers(ts[1..])
  }

  lemma {:induction false} LeadingCounts(ts: seq<bool>)
    ensures CountTriggers(ts) == Leading(ts) + CountTriggers(ts[Leading(ts)..])
  {
    if ts != [] && ts[0] {
      LeadingCounts(ts[1..]);
      assert ts[1..][Leading(ts[1..])..] == ts[Leading(ts)..];
    } else {
      assert ts[0..] == ts;
    }
  }

  lemma {:induction false} LengthsAddUp(ts: seq<bool>, offset: nat)
    ensures TotalLength(Blocks(ts, offset)) == CountTriggers(ts)
    decreases |ts|
  {
    if ts == [] {
    } else if !ts[0] {
      LengthsAddUp(ts[1..], offset + 1);
    } else {
      var n := Leading(ts);
      LeadingCounts(ts);
      LengthsAddUp(ts[n..], offset + n);
      assert Blocks(ts, offset)[1..] == Blocks(ts[n..], offset + n);
    }
  }

  function TotalRepeats(rows: seq<Row>): int {
    if rows == [] then 0 else rows[0].summary.repeatCount.GetOr(1) + TotalRepeats(rows[1..])
  }

  lemma {:induction false} RepeatsAreLengths(es: seq<Evaluation>, bs: seq<Block>)
    requires forall b :: b in bs ==> b.length > 0 && b.start + b.length <= |es|
    ensures TotalRepeats(BlockRows(es, bs)) == TotalLength(bs)
  {
    if bs != [] {
      assert BlockRows(es, bs)[0] == BlockRow(es, bs[0]) && BlockRow(es, bs[0]).summary.repeatCount == Some(bs[0].length);
      assert BlockRows(es, bs)[1..] == BlockRows(es, bs[1..]);
      RepeatsAreLengths(es, bs[1..]);
    }
  }

  /** The repeat counts stored for a key add up to its triggered evaluations: each is counted once, in one row. */
  lemma RepeatCountsAddUp(runs: seq<RunInput>, key: Key)
    requires Scheduled(runs)
    ensures TotalRepeats(KeyRows(RunAll(runs), key)) == CountTriggers(Triggers(Evaluations(runs, key)))
  {
    hide BlockRows, Blocks, TotalRepeats;
    var es := Evaluations(runs, key);
    RowsEncodeHistory(runs, key);
    BlocksStartLater(Triggers(es), 0);
    RepeatsAreLengths(es, Blocks(Triggers(es), 0));
    LengthsAddUp(Triggers(es), 0);
  }
}
