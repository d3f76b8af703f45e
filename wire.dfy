/**
 * The correlation protocol of `Interpreter` stated on values: a FIFO queue of
 * pending match keys and a read cursor into the guest's output lines. The
 * methods of `Engine.Interpreter` are proved to follow these functions.
 */
module Wire {

  import opened Text
  import opened Syntax

  /** The engine's side of the channel: pending match keys, oldest first, and the next line to read. */
  datatype Link = Link(queue: seq<string>, cursor: nat)

  /** Position of the first line at or after `from` equal to `key`: where the read loop stops. */
  function MatchIndex(lines: seq<string>, from: nat, key: string): (j: nat)
    requires from <= |lines| && key in lines[from..]
    ensures from <= j < |lines| && lines[j] == key
    ensures forall i :: from <= i < j ==> lines[i] != key
    decreases |lines| - from
  {
    assert lines[from..] == [lines[from]] + lines[from + 1..];
    if lines[from] == key then from else MatchIndex(lines, from + 1, key)
  }

  /** A line equal to `key` no later than its first occurrence is that occurrence. */
  lemma MatchIndexStops(lines: seq<string>, from: nat, key: string, c: nat)
    requires from <= c < |lines| && key in lines[from..]
    requires c <= MatchIndex(lines, from, key) && lines[c] == key
    ensures c == MatchIndex(lines, from, key)
  {
  }

  /** The lines `is_not_input_head` keeps, in read order. */
  function Kept(ls: seq<string>): (r: seq<string>)
    ensures |r| <= |ls|
  {
    if ls == [] then []
    else if IsNotInputHead(ls[0]) then [ls[0]] + Kept(ls[1..])
    else Kept(ls[1..])
  }

  /** The text of one reply: the kept lines read before the match line, joined. */
  function ReplyText(lines: seq<string>, from: nat, key: string): string
    requires from <= |lines| && key in lines[from..]
  {
    Concat(Kept(lines[from..MatchIndex(lines, from, key)]))
  }

  /** `receive_one` terminates: the cursor is in range and the head key is still to come. */
  predicate CanReceiveOne(l: Link, lines: seq<string>)
  {
    l.cursor <= |lines| && (l.queue != [] ==> l.queue[0] in lines[l.cursor..])
  }

  /**
   * `receive_one`: with nothing pending, the pair `("", "")` and no change;
   * otherwise the head key is popped, the cursor moves just past its first
   * occurrence, and the key comes back with the reply text.
   */
  function ReceiveOne(l: Link, lines: seq<string>): (r: (Link, (string, string)))
    requires CanReceiveOne(l, lines)
    ensures l.cursor <= r.0.cursor <= |lines|
  {
    if l.queue == [] then (l, ("", ""))
    else
      var k := l.queue[0];
      (Link(l.queue[1..], MatchIndex(lines, l.cursor, k) + 1), (k, ReplyText(lines, l.cursor, k)))
  }

  /**
   * `receive_by_key(k)` terminates: every `receive_one` it makes can finish,
   * and it meets `k` before the queue runs dry, or `k` is the empty key that
   * an empty queue answers with.
   */
  predicate CanReceiveByKey(l: Link, lines: seq<string>, k: string)
    decreases |l.queue|
  {
    CanReceiveOne(l, lines) &&
    if l.queue == [] then k == ""
    else l.queue[0] == k || CanReceiveByKey(ReceiveOne(l, lines).0, lines, k)
  }

  /** `receive_by_key`: replies are popped in order and dropped until the one keyed `k`. */
  function ReceiveByKey(l: Link, lines: seq<string>, k: string): (r: (Link, string))
    requires CanReceiveByKey(l, lines, k)
    ensures l.cursor <= r.0.cursor <= |lines|
    decreases |l.queue|
  {
    var (next, reply) := ReceiveOne(l, lines);
    if reply.0 == k then (next, reply.1) else ReceiveByKey(next, lines, k)
  }

  /** The replies `receive_by_key(k)` pops and throws away, in order. */
  function Discarded(l: Link, lines: seq<string>, k: string): seq<(string, string)>
    requires CanReceiveByKey(l, lines, k)
    decreases |l.queue|
  {
    var (next, reply) := ReceiveOne(l, lines);
    if reply.0 == k then [] else [reply] + Discarded(next, lines, k)
  }

  /** The channel state at the moment `receive_by_key(k)` pops the entry it answers with. */
  function Answered(l: Link, lines: seq<string>, k: string): Link
    requires CanReceiveByKey(l, lines, k)
    decreases |l.queue|
  {
    if l.queue == [] || l.queue[0] == k then l else Answered(ReceiveOne(l, lines).0, lines, k)
  }

  /** Position of the first `k` in a queue. */
  function IndexOf(q: seq<string>, k: string): (p: nat)
    requires k in q
    ensures p < |q| && q[p] == k && k !in q[..p]
  {
    if q[0] == k then 0 else
      assert q == [q[0]] + q[1..];
      var p := IndexOf(q[1..], k);
      assert q[..p + 1] == [q[0]] + q[1..][..p];
      p + 1
  }

  /** The first occurrence is the only position with `k` and no earlier `k`. */
  lemma IndexOfUnique(q: seq<string>, k: string, p: nat)
    requires p < |q| && q[p] == k && k !in q[..p]
    ensures IndexOf(q, k) == p
  {
    var p' := IndexOf(q, k);
    assert forall i :: 0 <= i < p ==> q[i] != k by {
      forall i | 0 <= i < p ensures q[i] != k {
        assert q[i] == q[..p][i];
      }
    }
    assert forall i :: 0 <= i < p' ==> q[i] != k by {
      forall i | 0 <= i < p' ensures q[i] != k {
        assert q[i] == q[..p'][i];
      }
    }
  }

  /**
   * Replies to pipelined questions read back to back: the reply to each key
   * starts just past the match line of the one before, beginning at `from`.
   */
  predicate CanReadPipelined(lines: seq<string>, from: nat, keys: seq<string>)
    decreases |keys|
  {
    from <= |lines| &&
    (keys != [] ==> keys[0] in lines[from..] && CanReadPipelined(lines, MatchIndex(lines, from, keys[0]) + 1, keys[1..]))
  }

  /** The reply texts of pipelined questions, one per key, in order. */
  function Pipelined(lines: seq<string>, from: nat, keys: seq<string>): (r: seq<string>)
    requires CanReadPipelined(lines, from, keys)
    ensures |r| == |keys|
    decreases |keys|
  {
    if keys == [] then []
    else [ReplyText(lines, from, keys[0])] + Pipelined(lines, MatchIndex(lines, from, keys[0]) + 1, keys[1..])
  }

  /** The line just past the last match line of pipelined questions. */
  function PipelinedEnd(lines: seq<string>, from: nat, keys: seq<string>): (r: nat)
    requires CanReadPipelined(lines, from, keys)
    ensures from <= r <= |lines|
    decreases |keys|
  {
    if keys == [] then from else PipelinedEnd(lines, MatchIndex(lines, from, keys[0]) + 1, keys[1..])
  }

  // ---------------------------------------------------------------------
  // Properties
  // ---------------------------------------------------------------------

  /**
   * `receive_one` keeps the queue FIFO: it answers for the oldest key, leaves
   * the later keys in order, reads only forward, and stops just past the
   * first line equal to the key; the reply holds no line equal to the key.
   */
  lemma ReceiveOneFifo(l: Link, lines: seq<string>)
    requires CanReceiveOne(l, lines) && l.queue != []
    ensures var (next, reply) := ReceiveOne(l, lines);
      && reply.0 == l.queue[0]
      && next.queue == l.queue[1..]
      && l.cursor < next.cursor <= |lines|
      && lines[next.cursor - 1] == reply.0
      && reply.0 !in lines[l.cursor..next.cursor - 1]
  {
  }

  /** One `receive_one` reads the first of the pipelined replies still pending and leaves the rest. */
  lemma PipelinedStep(l: Link, lines: seq<string>)
    requires CanReceiveOne(l, lines) && l.queue != []
    ensures var (next, reply) := ReceiveOne(l, lines);
      CanReadPipelined(lines, next.cursor, next.queue) ==>
        && CanReadPipelined(lines, l.cursor, l.queue)
        && Pipelined(lines, l.cursor, l.queue) == [reply.1] + Pipelined(lines, next.cursor, next.queue)
        && PipelinedEnd(lines, l.cursor, l.queue) == PipelinedEnd(lines, next.cursor, next.queue)
  {
  }

  /**
   * `receive_by_key(k)` for a pending `k` pops exactly the entries up to and
   * including the first `k`: the discarded replies are those of the earlier
   * entries, in queue order, and the answer is the reply of that `k`.
   * For a `k` that is not pending (only the empty key can be) it drains the
   * whole queue and answers the empty text.
   */
  lemma ReceiveByKeyDrains(l: Link, lines: seq<string>, k: string)
    requires CanReceiveByKey(l, lines, k)
    ensures var (next, text) := ReceiveByKey(l, lines, k);
      var gone := Discarded(l, lines, k);
      if k in l.queue then
        var p := IndexOf(l.queue, k);
        var m := Answered(l, lines, k);
        && next.queue == l.queue[p + 1..]
        && |gone| == p
        && (forall i :: 0 <= i < p ==> gone[i].0 == l.queue[i])
        && m.queue == l.queue[p..]
        && l.cursor <= m.cursor
        && CanReceiveOne(m, lines)
        && next.cursor == MatchIndex(lines, m.cursor, k) + 1
        && text == ReplyText(lines, m.cursor, k)
      else
        && k == ""
        && next.queue == []
        && text == ""
        && |gone| == |l.queue|
        && (forall i :: 0 <= i < |gone| ==> gone[i].0 == l.queue[i])
  {
    if k in l.queue {
      DrainsToKey(l, lines, k);
      ReceiveByKeyAnswer(l, lines, k);
    } else {
      DrainsAll(l, lines, k);
    }
  }

  /** A pending key: the entries before its first occurrence are popped and discarded in order. */
  lemma {:induction false} DrainsToKey(l: Link, lines: seq<string>, k: string)
    requires CanReceiveByKey(l, lines, k) && k in l.queue
    ensures var p := IndexOf(l.queue, k);
      var gone := Discarded(l, lines, k);
      && ReceiveByKey(l, lines, k).0.queue == l.queue[p + 1..]
      && |gone| == p
      && (forall i :: 0 <= i < p ==> gone[i].0 == l.queue[i])
    decreases |l.queue|
  {
    if l.queue[0] != k {
      var next := ReceiveOne(l, lines).0;
      assert next.queue == l.queue[1..];
      IndexOfTail(l.queue, k);
      DrainsToKey(next, lines, k);
    }
  }

  /**
   * A pending key is answered from where the discarded replies left the
   * cursor: the text is the reply read from there up to the first line equal
   * to the key, and the cursor ends just past that line.
   */
  lemma ReceiveByKeyAnswer(l: Link, lines: seq<string>, k: string)
    requires CanReceiveByKey(l, lines, k) && k in l.queue
    ensures var p := IndexOf(l.queue, k);
      var m := Answered(l, lines, k);
      && m.queue == l.queue[p..]
      && l.cursor <= m.cursor
      && CanReceiveOne(m, lines)
      && ReceiveByKey(l, lines, k).0.cursor == MatchIndex(lines, m.cursor, k) + 1
      && ReceiveByKey(l, lines, k).1 == ReplyText(lines, m.cursor, k)
  {
    AnsweredAtKey(l, lines, k);
    AnsweredQueue(l, lines, k);
    var m := Answered(l, lines, k);
    AnswerAtHead(m, lines);
  }

  /** `receive_by_key` skips ahead to the entry for `k` and answers as it would from there. */
  lemma {:induction false} AnsweredAtKey(l: Link, lines: seq<string>, k: string)
    requires CanReceiveByKey(l, lines, k) && k in l.queue
    ensures var m := Answered(l, lines, k);
      && CanReceiveOne(m, lines)
      && m.queue != [] && m.queue[0] == k
      && l.cursor <= m.cursor
      && CanReceiveByKey(m, lines, k)
      && ReceiveByKey(l, lines, k) == ReceiveByKey(m, lines, k)
    decreases |l.queue|
  {
    if l.queue[0] != k {
      var next := ReceiveOne(l, lines).0;
      assert k in next.queue by { assert l.queue == [l.queue[0]] + next.queue; }
      AnsweredAtKey(next, lines, k);
    }
  }

  /** The entry `receive_by_key` answers with is the first `k` in the queue. */
  lemma {:induction false} AnsweredQueue(l: Link, lines: seq<string>, k: string)
    requires CanReceiveByKey(l, lines, k) && k in l.queue
    ensures Answered(l, lines, k).queue == l.queue[IndexOf(l.queue, k)..]
    decreases |l.queue|
  {
    if l.queue[0] != k {
      var next := ReceiveOne(l, lines).0;
      IndexOfTail(l.queue, k);
      AnsweredQueue(next, lines, k);
    }
  }

  /** A key at the head is answered by one `receive_one` from the current cursor. */
  lemma AnswerAtHead(l: Link, lines: seq<string>)
    requires CanReceiveOne(l, lines) && l.queue != []
    ensures var k := l.queue[0];
      && CanReceiveByKey(l, lines, k)
      && Answered(l, lines, k) == l
      && IndexOf(l.queue, k) == 0
      && ReceiveByKey(l, lines, k)
        == (Link(l.queue[1..], MatchIndex(lines, l.cursor, k) + 1), ReplyText(lines, l.cursor, k))
  {
  }

  /** A key that is not pending: the whole queue is popped and discarded in order. */
  lemma {:induction false} DrainsAll(l: Link, lines: seq<string>, k: string)
    requires CanReceiveByKey(l, lines, k) && k !in l.queue
    ensures var (next, text) := ReceiveByKey(l, lines, k);
      var gone := Discarded(l, lines, k);
      && k == ""
      && next.queue == []
      && text == ""
      && |gone| == |l.queue|
      && (forall i :: 0 <= i < |gone| ==> gone[i].0 == l.queue[i])
    decreases |l.queue|
  {
    if l.queue != [] {
      var next := ReceiveOne(l, lines).0;
      assert next.queue == l.queue[1..];
      assert l.queue == [l.queue[0]] + next.queue;
      DrainsAll(next, lines, k);
    }
  }

  /** Past a head that is not `k`, the first `k` is one further along. */
  lemma IndexOfTail(q: seq<string>, k: string)
    requires k in q && q[0] != k
    ensures k in q[1..] && IndexOf(q, k) == IndexOf(q[1..], k) + 1
  {
    assert q == [q[0]] + q[1..];
  }

  /** The cursor never moves back and stays in range. */
  lemma {:induction false} ReceiveByKeyForward(l: Link, lines: seq<string>, k: string)
    requires CanReceiveByKey(l, lines, k)
    ensures l.cursor <= ReceiveByKey(l, lines, k).0.cursor <= |lines|
    decreases |l.queue|
  {
    if l.queue != [] && l.queue[0] != k {
      ReceiveByKeyForward(ReceiveOne(l, lines).0, lines, k);
    }
  }

  /**
   * `get` on an idle engine: the request's own reply comes back, and the
   * queue is empty again.
   */
  lemma GetOnIdle(cursor: nat, lines: seq<string>, k: string)
    requires cursor <= |lines| && k in lines[cursor..]
    ensures CanReceiveByKey(Link([k], cursor), lines, k)
    ensures ReceiveByKey(Link([k], cursor), lines, k)
      == (Link([], MatchIndex(lines, cursor, k) + 1), ReplyText(lines, cursor, k))
  {
    assert [k][1..] == [];
  }

  /**
   * `get` when the queue holds earlier requests whose keys differ from its
   * own: all of them are drained and the queue ends empty. Were one of them
   * to carry the same key (two stamps from one clock tick), `get` would stop
   * at that older entry and leave its own request pending.
   */
  lemma {:induction false} GetDrainsEarlier(l: Link, lines: seq<string>, k: string)
    requires CanReceiveByKey(Link(l.queue + [k], l.cursor), lines, k)
    ensures var next := ReceiveByKey(Link(l.queue + [k], l.cursor), lines, k).0;
      (k !in l.queue ==> next.queue == []) &&
      (k in l.queue ==> next.queue == l.queue[IndexOf(l.queue, k) + 1..] + [k])
  {
    if k in l.queue {
      GetStopsAtOlder(l, lines, k);
    } else {
      GetDrainsAll(l, lines, k);
    }
  }

  lemma GetStopsAtOlder(l: Link, lines: seq<string>, k: string)
    requires CanReceiveByKey(Link(l.queue + [k], l.cursor), lines, k) && k in l.queue
    ensures ReceiveByKey(Link(l.queue + [k], l.cursor), lines, k).0.queue == l.queue[IndexOf(l.queue, k) + 1..] + [k]
  {
    var q := l.queue + [k];
    var p := IndexOf(l.queue, k);
    assert q[..p] == l.queue[..p];
    IndexOfUnique(q, k, p);
    DrainsToKey(Link(q, l.cursor), lines, k);
    assert q[p + 1..] == l.queue[p + 1..] + [k];
  }

  lemma GetDrainsAll(l: Link, lines: seq<string>, k: string)
    requires CanReceiveByKey(Link(l.queue + [k], l.cursor), lines, k) && k !in l.queue
    ensures ReceiveByKey(Link(l.queue + [k], l.cursor), lines, k).0.queue == []
  {
    var q := l.queue + [k];
    assert q[..|l.queue|] == l.queue;
    IndexOfUnique(q, k, |l.queue|);
    DrainsToKey(Link(q, l.cursor), lines, k);
    assert q[|l.queue| + 1..] == [];
  }

  /** The kept lines are exactly the read lines that are not prompt echoes. */
  lemma {:induction false} KeptMembers(ls: seq<string>)
    ensures forall x :: x in Kept(ls) <==> x in ls && IsNotInputHead(x)
  {
    if ls != [] {
      KeptMembers(ls[1..]);
      assert ls == [ls[0]] + ls[1..];
    }
  }

  /** A reply with no prompt echo before its match line is the plain concatenation of those lines. */
  lemma {:induction false} KeptAll(ls: seq<string>)
    requires forall i :: 0 <= i < |ls| ==> IsNotInputHead(ls[i])
    ensures Kept(ls) == ls
  {
    if ls != [] {
      KeptAll(ls[1..]);
    }
  }

  /** Reading one more line extends the kept lines by that line, unless it is a prompt echo. */
  lemma KeptStep(lines: seq<string>, from: nat, c: nat)
    requires from <= c < |lines|
    ensures Kept(lines[from..c + 1]) == Kept(lines[from..c]) + (if IsNotInputHead(lines[c]) then [lines[c]] else [])
  {
    assert lines[from..c + 1] == lines[from..c] + [lines[c]];
    KeptAppend(lines[from..c], [lines[c]]);
    assert [lines[c]][1..] == [];
  }

  /** Kept lines of a concatenation: filtering distributes over the split of the input. */
  lemma {:induction false} KeptAppend(a: seq<string>, b: seq<string>)
    ensures Kept(a + b) == Kept(a) + Kept(b)
  {
    if a != [] {
      assert (a + b)[1..] == a[1..] + b;
      KeptAppend(a[1..], b);
    } else {
      assert a + b == b;
    }
  }
}
