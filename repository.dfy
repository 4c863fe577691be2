/**
  The batch run repository: a fixed pool of `MAX_ACTIVE_BATCHES_NUMBER`
  batch runs, a FIFO queue of the free pool indexes, a map from batch id to
  pool index, and the clean-up queue of live runs, which yields the run
  with the oldest last-update time first. The clock is a parameter of each
  operation that reads it.
*/
module BatchRunRepository {
  import opened Bytes
  import opened Errors
  import opened Flyweight
  import opened RecordsBlock
  import opened BatchRun
  import opened Configuration

  /** The repository's bookkeeping: which indexes are free, which id maps where, which runs are queued. */
  datatype Ledger = Ledger(freeIndexes: seq<int>, idToIndex: map<int64, int>, queued: set<int>)

  /**
    The source binds run `i` at `i * size` in one buffer of
    `MAX_ACTIVE_BATCHES_NUMBER * size` bytes: each region ends before the
    next one starts and the last one ends at the end of the buffer.
  */
  lemma RegionsApart(size: nat, i: int, j: int)
    requires 0 <= i < j < MAX_ACTIVE_BATCHES_NUMBER
    ensures i * size + size <= j * size
    ensures j * size + size <= MAX_ACTIVE_BATCHES_NUMBER * size
  {
    assert (j - i) * size >= size by {
      assert j - i >= 1;
    }
    assert (MAX_ACTIVE_BATCHES_NUMBER - j) * size >= size by {
      assert MAX_ACTIVE_BATCHES_NUMBER - j >= 1;
    }
  }

  /** No index appears twice in the queue. */
  predicate Distinct(q: seq<int>)
  {
    forall a, b | 0 <= a < b < |q| :: q[a] != q[b]
  }

  /** The queue `[0, 1, ..., n - 1]`. */
  function Upto(n: nat): (q: seq<int>)
    ensures |q| == n && forall a | 0 <= a < n :: q[a] == a
  {
    if n == 0 then [] else Upto(n - 1) + [n - 1]
  }

  /** A non-empty set of positions has one whose stamp is the least. */
  lemma {:induction false} OldestExists(stamps: seq<int64>, s: set<int>) returns (k: int)
    requires s != {} && forall j | j in s :: 0 <= j < |stamps|
    ensures k in s && forall j | j in s :: stamps[k] <= stamps[j]
    decreases |s|
  {
    var x := Member(s);
    if s == {x} {
      k := x;
    } else {
      var m := OldestExists(stamps, s - {x});
      k := if stamps[x] <= stamps[m] then x else m;
    }
  }

  /** The ids held by the runs at the given pool indexes. */
  function IdsAt(ids: seq<int64>, q: seq<int>): (r: set<int64>)
    ensures forall a | 0 <= a < |q| && 0 <= q[a] < |ids| :: ids[q[a]] in r
    ensures forall id | id in r :: exists a | 0 <= a < |q| :: 0 <= q[a] < |ids| && ids[q[a]] == id
  {
    set a | 0 <= a < |q| && 0 <= q[a] < |ids| :: ids[q[a]]
  }

  /** The pool indexes that are not in the free queue. */
  function LiveOf(free: seq<int>): set<int>
  {
    set i | 0 <= i < MAX_ACTIVE_BATCHES_NUMBER && i !in free
  }

  /**
    The bookkeeping of the repository, given the id each pool run holds:
    the free queue holds distinct pool indexes, the clean-up queue holds
    exactly the others, and every mapped id leads to a live run holding it.
  */
  predicate Books(free: seq<int>, queued: set<int>, ids: seq<int64>, idToIndex: map<int64, int>)
  {
    && |ids| == MAX_ACTIVE_BATCHES_NUMBER && Distinct(free) && (forall a | 0 <= a < |free| :: 0 <= free[a] < MAX_ACTIVE_BATCHES_NUMBER)
    && queued == LiveOf(free)
    && (forall id | id in idToIndex :: idToIndex[id] in queued && ids[idToIndex[id]] == id)
  }

  /** `create` keeps the bookkeeping: the first free index goes live under the new id. */
  lemma BooksAfterCreate(free: seq<int>, queued: set<int>, ids: seq<int64>, idToIndex: map<int64, int>, id: int64)
    requires Books(free, queued, ids, idToIndex) && free != []
    ensures free[0] !in queued
    ensures Books(free[1..], queued + {free[0]}, ids[free[0] := id], idToIndex[id := free[0]])
  {
    var k := free[0];
    assert LiveOf(free[1..]) == queued + {k} by {
      forall i | 0 <= i < MAX_ACTIVE_BATCHES_NUMBER
        ensures i in free <==> i == k || i in free[1..]
      {
        if i in free && i != k {
          var a :| 0 <= a < |free| && free[a] == i;
          assert free[1..][a - 1] == i;
        }
      }
    }
  }

  /** `remove` keeps the bookkeeping: the live index goes back to the free queue and its id is unmapped. */
  lemma BooksAfterRemove(free: seq<int>, queued: set<int>, ids: seq<int64>, idToIndex: map<int64, int>, k: int)
    requires Books(free, queued, ids, idToIndex) && k in queued
    ensures Books(free + [k], queued - {k}, ids, idToIndex - {ids[k]})
  {
    assert LiveOf(free + [k]) == queued - {k} by {
      forall i | 0 <= i < MAX_ACTIVE_BATCHES_NUMBER
        ensures i in free + [k] <==> i == k || i in free
      {
        if i in free + [k] && i != k {
          var a :| 0 <= a < |free + [k]| && (free + [k])[a] == i;
          assert free[a] == i;
        }
      }
    }
  }

  /**
    The pool's capacity is shared out: free indexes and live runs together
    number `MAX_ACTIVE_BATCHES_NUMBER`.
  */
  lemma FreePlusLive(free: seq<int>, queued: set<int>, ids: seq<int64>, idToIndex: map<int64, int>)
    requires Books(free, queued, ids, idToIndex)
    ensures |free| + |queued| == MAX_ACTIVE_BATCHES_NUMBER
  {
    var all := Range(MAX_ACTIVE_BATCHES_NUMBER);
    var held := Elements(free);
    DistinctCard(free);
    RangeCard(MAX_ACTIVE_BATCHES_NUMBER);
    assert all == held + queued && held !! queued;
  }

  /** Mapping a new key grows a map by one entry: `create` with a new id grows `size` by one. */
  lemma MapGrows(m: map<int64, int>, k: int64, v: int)
    ensures k !in m ==> |m[k := v]| == |m| + 1
  {
    if k !in m {
      assert m[k := v].Keys == m.Keys + {k};
    }
  }

  /** The indexes `0 .. n - 1` as a set. */
  function Range(n: nat): (r: set<int>)
    ensures forall i :: i in r <==> 0 <= i < n
  {
    if n == 0 then {} else Range(n - 1) + {n - 1}
  }

  /** The members of a queue as a set. */
  function Elements(q: seq<int>): (r: set<int>)
    ensures forall i :: i in r <==> i in q
  {
    set i | i in q
  }

  lemma {:induction false} RangeCard(n: nat)
    ensures |Range(n)| == n
  {
    if n > 0 {
      RangeCard(n - 1);
    }
  }

  lemma {:induction false} DistinctCard(q: seq<int>)
    requires Distinct(q)
    ensures |Elements(q)| == |q|
  {
    if q != [] {
      var p := q[..|q| - 1];
      assert Distinct(p);
      DistinctCard(p);
      assert q == p + [q[|q| - 1]];
      assert Elements(q) == Elements(p) + {q[|q| - 1]};
      assert q[|q| - 1] !in p;
    }
  }

  /** `run` is the pool's run `i`, with `n` records, bound for writing at 0 in `buffer`. */
  predicate Pooled(run: BatchRun, i: int, buffer: array<byte>, n: nat)
    reads run, run.block, run.block.view
  {
    && run.index == i && run.block.recordsNumber == n
    && run.Bound() && run.block.view.writeBuffer == buffer && run.block.view.offset == 0
  }

  /**
    The pool's run `k` as the constructor leaves it: owned, bound at 0 in
    its own buffer, with nothing included and the header `id`, `time`.
  */
  ghost predicate Entry(run: BatchRun, k: int, buffer: array<byte>, n: nat, objects: set<object>,
                        owners: map<array<byte>, int>, ownViews: set<Flyweight>, id: int64, time: int64)
    reads run, run.block, run.block.view, buffer
  {
    && run in objects && run.block in objects && run.block.view in objects
    && run.block.priceRecord in objects && buffer in objects
    && Pooled(run, k, buffer, n) && run.included == {}
    && buffer in owners && owners[buffer] == k
    && run.block.view in ownViews && run.block.priceRecord !in ownViews
    && run.Id() == id && run.LastUpdateTimestamp() == time
  }

  /** One run of the pool: run `i` with `n` records, bound at 0 in a fresh zero-filled buffer of its size. */
  method NewRun(i: int32, n: nat) returns (run: BatchRun, buffer: array<byte>)
    ensures fresh(run) && fresh(run.block) && fresh(run.block.view) && fresh(run.block.priceRecord) && fresh(buffer)
    ensures Pooled(run, i, buffer, n) && run.included == {}
  {
    run := new BatchRun(i, n);
    buffer := new byte[run.block.SizeInBytes()](_ => 0);
    var r := run.block.WrapForWrite(buffer, 0);
  }

  /** Growing the objects, owners and views by new ones keeps an entry. */
  lemma EntryGrows(run: BatchRun, k: int, buffer: array<byte>, n: nat, objects: set<object>,
                   owners: map<array<byte>, int>, ownViews: set<Flyweight>, id: int64, time: int64,
                   more: set<object>, b: array<byte>, j: int, v: Flyweight)
    requires Entry(run, k, buffer, n, objects, owners, ownViews, id, time)
    requires b != buffer && v != run.block.priceRecord
    ensures Entry(run, k, buffer, n, objects + more, owners[b := j], ownViews + {v}, id, time)
  { }

  /** Appending an entry to the pool keeps every position an entry. */
  lemma EntriesGrow(pool: seq<BatchRun>, memory: seq<array<byte>>, heads: seq<int64>, stamps: seq<int64>, n: nat,
                    objects: set<object>, owners: map<array<byte>, int>, ownViews: set<Flyweight>,
                    run: BatchRun, buffer: array<byte>, id: int64, time: int64)
    requires |memory| == |pool| && |heads| == |pool| && |stamps| == |pool|
    requires forall k | 0 <= k < |pool| :: Entry(pool[k], k, memory[k], n, objects, owners, ownViews, heads[k], stamps[k])
    requires Entry(run, |pool|, buffer, n, objects, owners, ownViews, id, time)
    ensures forall k | 0 <= k < |pool| + 1 ::
      Entry((pool + [run])[k], k, (memory + [buffer])[k], n, objects, owners, ownViews, (heads + [id])[k], (stamps + [time])[k])
  {
    forall k | 0 <= k < |pool| + 1
      ensures Entry((pool + [run])[k], k, (memory + [buffer])[k], n, objects, owners, ownViews, (heads + [id])[k], (stamps + [time])[k])
    {
      if k < |pool| {
        assert (pool + [run])[k] == pool[k] && (memory + [buffer])[k] == memory[k];
      }
    }
  }

  /**
    The runs of the pool, `MAX_ACTIVE_BATCHES_NUMBER` of them, each in its
    own fresh buffer, with the objects, owners, views and headers that
    describe them.
  */
  method NewPool(n: nat)
    returns (pool: seq<BatchRun>, memory: seq<array<byte>>, ghost objects: set<object>,
             ghost owners: map<array<byte>, int>, ghost ownViews: set<Flyweight>,
             ghost heads: seq<int64>, ghost stamps: seq<int64>)
    ensures |pool| == MAX_ACTIVE_BATCHES_NUMBER && |memory| == MAX_ACTIVE_BATCHES_NUMBER
    ensures |heads| == MAX_ACTIVE_BATCHES_NUMBER && |stamps| == MAX_ACTIVE_BATCHES_NUMBER
    ensures fresh(objects) && ownViews <= objects
    ensures forall k | 0 <= k < MAX_ACTIVE_BATCHES_NUMBER ::
      Entry(pool[k], k, memory[k], n, objects, owners, ownViews, heads[k], stamps[k])
  {
    pool, memory, objects, owners, ownViews, heads, stamps := [], [], {}, map[], {}, [], [];
    var i := 0;
    while i < MAX_ACTIVE_BATCHES_NUMBER
      invariant 0 <= i <= MAX_ACTIVE_BATCHES_NUMBER && |pool| == i && |memory| == i && |heads| == i && |stamps| == i
      invariant fresh(objects) && ownViews <= objects
      invariant forall k | 0 <= k < i ::
        Entry(pool[k], k, memory[k], n, objects, owners, ownViews, heads[k], stamps[k])
    {
      var run, buffer := NewRun(i, n);
      forall k | 0 <= k < i
        ensures Entry(pool[k], k, memory[k], n, objects + {run, run.block, run.block.view, run.block.priceRecord, buffer},
                      owners[buffer := i], ownViews + {run.block.view}, heads[k], stamps[k])
      {
        EntryGrows(pool[k], k, memory[k], n, objects, owners, ownViews, heads[k], stamps[k],
                   {run, run.block, run.block.view, run.block.priceRecord, buffer}, buffer, i, run.block.view);
      }
      objects := objects + {run, run.block, run.block.view, run.block.priceRecord, buffer};
      owners := owners[buffer := i];
      ownViews := ownViews + {run.block.view};
      assert Entry(run, i, buffer, n, objects, owners, ownViews, run.Id(), run.LastUpdateTimestamp());
      EntriesGrow(pool, memory, heads, stamps, n, objects, owners, ownViews, run, buffer, run.Id(), run.LastUpdateTimestamp());
      pool := pool + [run];
      memory := memory + [buffer];
      heads := heads + [run.Id()];
      stamps := stamps + [run.LastUpdateTimestamp()];
      i := i + 1;
    }
  }

  class Repository {
    /** The number of records of every run. */
    const recordsNumber: nat
    /** `batchRunsPool`: run `i` has pool index `i`. */
    const runs: seq<BatchRun>
    /** The buffer each run is bound to. */
    const buffers: seq<array<byte>>
    /** Every object the repository owns. */
    ghost const Repr: set<object>
    /** Which run each buffer belongs to. */
    ghost const owner: map<array<byte>, int>
    /** The runs' own views, none of which is a record view. */
    ghost const views: set<Flyweight>
    var freeIndexes: seq<int>
    /** `idToIndexMapping`. */
    var idToIndex: map<int64, int>
    /** `cleanUpQueue`: the pool indexes of the live runs. */
    var queued: set<int>
    /** The id and the last-update time in each run's header. */
    ghost var ids: seq<int64>
    ghost var times: seq<int64>

    /** The free-index queue, the id map and the clean-up queue, as one value. */
    ghost function Bookkeeping(): Ledger
      reads this
    {
      Ledger(freeIndexes, idToIndex, queued)
    }

    /** The bytes of the run batch `id` maps to; none for an unmapped id. */
    ghost function RunOf(id: int64): seq<byte>
      reads this, buffers
    {
      if id in idToIndex && 0 <= idToIndex[id] < |buffers| then buffers[idToIndex[id]][..] else []
    }

    /** The record indexes included in the run batch `id` maps to; none for an unmapped id. */
    ghost function IncludedOf(id: int64): set<int>
      reads this, runs
    {
      if id in idToIndex && 0 <= idToIndex[id] < |runs| then runs[idToIndex[id]].included else {}
    }

    /** Run `i` is the pool's `i`-th run, bound at 0 in its own buffer. */
    ghost predicate RunOk(i: int)
      reads Repr
      requires 0 <= i < |runs| == |buffers|
    {
      && runs[i] in Repr && runs[i].block in Repr && runs[i].block.view in Repr
      && runs[i].block.priceRecord in Repr && buffers[i] in Repr
      && Pooled(runs[i], i, buffers[i], recordsNumber)
    }

    /** Every run of the pool is in place, and no two runs share a buffer or a view. */
    ghost predicate PoolOk()
      reads Repr
    {
      && this !in Repr
      && |runs| == MAX_ACTIVE_BATCHES_NUMBER && |buffers| == MAX_ACTIVE_BATCHES_NUMBER
      && (forall i | 0 <= i < MAX_ACTIVE_BATCHES_NUMBER :: RunOk(i))
      && (forall i | 0 <= i < MAX_ACTIVE_BATCHES_NUMBER ::
            && buffers[i] in owner && owner[buffers[i]] == i
            && runs[i].block.view in views && runs[i].block.priceRecord !in views)
    }

    /** The id stored in run `k`'s header. */
    function IdOf(k: int): int64
      reads Repr
      requires PoolOk() && 0 <= k < MAX_ACTIVE_BATCHES_NUMBER
    {
      assert RunOk(k);
      runs[k].Id()
    }

    /** The last-update time stored in run `k`'s header. */
    function TimeOf(k: int): int64
      reads Repr
      requires PoolOk() && 0 <= k < MAX_ACTIVE_BATCHES_NUMBER
    {
      assert RunOk(k);
      runs[k].LastUpdateTimestamp()
    }

    /** The ghost copies of the headers agree with the runs. */
    ghost predicate HeadersOk()
      reads this, Repr
      requires PoolOk()
    {
      && |ids| == MAX_ACTIVE_BATCHES_NUMBER && |times| == MAX_ACTIVE_BATCHES_NUMBER
      && forall k {:trigger IdOf(k)} {:trigger TimeOf(k)} | 0 <= k < MAX_ACTIVE_BATCHES_NUMBER :: IdOf(k) == ids[k] && TimeOf(k) == times[k]
    }

    ghost predicate Valid()
      reads this, Repr
    {
      && PoolOk() && HeadersOk()
      && Books(freeIndexes, queued, ids, idToIndex)
      && (forall i | 0 <= i < MAX_ACTIVE_BATCHES_NUMBER && i in freeIndexes :: RunOk(i) && runs[i].included == {})
    }

    /**
      The pool of runs, each bound to a zero-filled buffer of its own, every
      index free, nothing mapped and nothing queued.
    */
    constructor (instrumentsNumber: nat)
      ensures Valid() && fresh(Repr)
      ensures recordsNumber == instrumentsNumber
      ensures freeIndexes == Upto(MAX_ACTIVE_BATCHES_NUMBER) && idToIndex == map[] && queued == {}
    {
      recordsNumber := instrumentsNumber;
      var pool, memory, objects, owners, ownViews, heads, stamps := NewPool(instrumentsNumber);
      runs, buffers, Repr, owner, views := pool, memory, objects, owners, ownViews;
      freeIndexes := Upto(MAX_ACTIVE_BATCHES_NUMBER);
      idToIndex := map[];
      queued := {};
      ids, times := heads, stamps;
      new;
      assert LiveOf(freeIndexes) == {} by {
        forall i | 0 <= i < MAX_ACTIVE_BATCHES_NUMBER
          ensures i in freeIndexes
        {
          assert freeIndexes[i] == i;
        }
      }
    }

    /** Writing run `i`'s buffer, record view or included set keeps every other run in place. */
    twostate lemma KeepOthers(i: int)
      requires old(PoolOk()) && 0 <= i < MAX_ACTIVE_BATCHES_NUMBER
      requires forall k | 0 <= k < MAX_ACTIVE_BATCHES_NUMBER && k != i :: unchanged(runs[k], runs[k].block.view, buffers[k])
      requires RunOk(i)
      ensures PoolOk()
      ensures forall k | 0 <= k < MAX_ACTIVE_BATCHES_NUMBER && k != i :: runs[k].included == old(runs[k].included)
    {
      forall k | 0 <= k < MAX_ACTIVE_BATCHES_NUMBER && k != i
        ensures RunOk(k)
      {
        assert old(RunOk(k));
      }
    }

    /** ... and keeps the header of every other run. */
    twostate lemma KeepOtherHeaders(i: int)
      requires old(PoolOk()) && PoolOk() && 0 <= i < MAX_ACTIVE_BATCHES_NUMBER
      requires forall k | 0 <= k < MAX_ACTIVE_BATCHES_NUMBER && k != i :: unchanged(runs[k], runs[k].block.view, buffers[k])
      ensures forall k | 0 <= k < MAX_ACTIVE_BATCHES_NUMBER && k != i :: IdOf(k) == old(IdOf(k)) && TimeOf(k) == old(TimeOf(k))
    {
      forall k | 0 <= k < MAX_ACTIVE_BATCHES_NUMBER && k != i
        ensures IdOf(k) == old(IdOf(k)) && TimeOf(k) == old(TimeOf(k))
      {
        KeepHeader(k);
      }
    }

    /** The repository depends on nothing but itself and what it owns. */
    twostate lemma Framed()
      requires old(Valid()) && unchanged(this) && unchanged(Repr)
      ensures Valid()
    {
    }

    /** Leaving every run untouched keeps the pool and every header. */
    twostate lemma KeepAll()
      requires old(PoolOk())
      requires forall k | 0 <= k < MAX_ACTIVE_BATCHES_NUMBER :: unchanged(runs[k], runs[k].block.view, buffers[k])
      ensures PoolOk()
      ensures forall k | 0 <= k < MAX_ACTIVE_BATCHES_NUMBER :: IdOf(k) == old(IdOf(k)) && TimeOf(k) == old(TimeOf(k))
    {
      forall k | 0 <= k < MAX_ACTIVE_BATCHES_NUMBER
        ensures RunOk(k)
      {
        assert old(RunOk(k));
      }
      forall k | 0 <= k < MAX_ACTIVE_BATCHES_NUMBER
        ensures IdOf(k) == old(IdOf(k)) && TimeOf(k) == old(TimeOf(k))
      {
        KeepHeader(k);
      }
    }

    /** An untouched run keeps its header. */
    twostate lemma KeepHeader(k: int)
      requires old(PoolOk()) && PoolOk() && 0 <= k < MAX_ACTIVE_BATCHES_NUMBER
      requires unchanged(runs[k], runs[k].block.view, buffers[k])
      ensures IdOf(k) == old(IdOf(k)) && TimeOf(k) == old(TimeOf(k))
    {
      assert old(RunOk(k)) && RunOk(k);
    }

    /** Run `k`'s buffer and record view belong to it alone: no other run has that buffer or that view. */
    lemma RunApart(k: int)
      requires PoolOk() && 0 <= k < MAX_ACTIVE_BATCHES_NUMBER
      ensures RunOk(k) && runs[k].block.view != runs[k].block.priceRecord
      ensures forall j | 0 <= j < MAX_ACTIVE_BATCHES_NUMBER && j != k ::
        buffers[j] != buffers[k] && runs[j].block.view != runs[k].block.priceRecord && runs[j].block.view in Repr && runs[j] != runs[k]
    {
      assert RunOk(k);
      forall j | 0 <= j < MAX_ACTIVE_BATCHES_NUMBER && j != k
        ensures runs[j].block.view in Repr && runs[j] != runs[k]
      {
        assert RunOk(j);
      }
    }

    /**
      Writing the records of run `k` and nothing else, its header bytes and
      every other run left as they were, keeps the repository valid with the
      same books and headers.
    */
    twostate lemma KeepRecordsWrite(k: int)
      requires old(Valid()) && 0 <= k < MAX_ACTIVE_BATCHES_NUMBER && unchanged(this)
      requires forall j | 0 <= j < MAX_ACTIVE_BATCHES_NUMBER && j != k :: unchanged(runs[j], runs[j].block.view, buffers[j])
      requires unchanged(runs[k], runs[k].block.view)
      requires BATCH_RUN_HEADER_SIZE <= buffers[k].Length && old(buffers[k][..BATCH_RUN_HEADER_SIZE]) == buffers[k][..BATCH_RUN_HEADER_SIZE]
      ensures Valid()
    {
      assert RunOk(k) by {
        assert old(RunOk(k));
      }
      KeepOthers(k);
      KeepOtherHeaders(k);
      var s, t := old(buffers[k][..]), buffers[k][..];
      assert t[ID_FIELD_OFFSET..ID_FIELD_OFFSET + SIZE_OF_LONG] == s[ID_FIELD_OFFSET..ID_FIELD_OFFSET + SIZE_OF_LONG];
      assert t[LAST_UPDATE_TIMESTAMP_FIELD_OFFSET..LAST_UPDATE_TIMESTAMP_FIELD_OFFSET + SIZE_OF_LONG] == s[LAST_UPDATE_TIMESTAMP_FIELD_OFFSET..LAST_UPDATE_TIMESTAMP_FIELD_OFFSET + SIZE_OF_LONG];
      assert IdOf(k) == old(IdOf(k)) && TimeOf(k) == old(TimeOf(k));
      assert HeadersOk();
    }

    /**
      Writing the records of the live run `k` and adding to its included
      set, within its records, its header bytes and every other run left as
      they were, keeps the repository valid with the same books and headers.
    */
    twostate lemma KeepRecordsInclude(k: int)
      requires old(Valid()) && 0 <= k < MAX_ACTIVE_BATCHES_NUMBER && k in queued && unchanged(this)
      requires forall j | 0 <= j < MAX_ACTIVE_BATCHES_NUMBER && j != k :: unchanged(runs[j], runs[j].block.view, buffers[j])
      requires unchanged(runs[k].block.view) && runs[k].Bound()
      requires BATCH_RUN_HEADER_SIZE <= buffers[k].Length && old(buffers[k][..BATCH_RUN_HEADER_SIZE]) == buffers[k][..BATCH_RUN_HEADER_SIZE]
      ensures Valid()
    {
      assert RunOk(k) by {
        assert old(RunOk(k));
      }
      KeepOthers(k);
      KeepOtherHeaders(k);
      var s, t := old(buffers[k][..]), buffers[k][..];
      assert t[ID_FIELD_OFFSET..ID_FIELD_OFFSET + SIZE_OF_LONG] == s[ID_FIELD_OFFSET..ID_FIELD_OFFSET + SIZE_OF_LONG];
      assert t[LAST_UPDATE_TIMESTAMP_FIELD_OFFSET..LAST_UPDATE_TIMESTAMP_FIELD_OFFSET + SIZE_OF_LONG] == s[LAST_UPDATE_TIMESTAMP_FIELD_OFFSET..LAST_UPDATE_TIMESTAMP_FIELD_OFFSET + SIZE_OF_LONG];
      assert IdOf(k) == old(IdOf(k)) && TimeOf(k) == old(TimeOf(k));
      assert HeadersOk();
      assert k !in freeIndexes;
    }

    /**
      Writes run `k`'s header (id and last-update time) and nothing else:
      every other run, every included set and the bookkeeping stay as they were.
    */
    method WriteHeader(k: int, id: int64, time: int64)
      requires PoolOk() && HeadersOk() && 0 <= k < MAX_ACTIVE_BATCHES_NUMBER
      modifies this, buffers[k]
      ensures PoolOk() && HeadersOk()
      ensures ids == old(ids)[k := id] && times == old(times)[k := time]
      ensures freeIndexes == old(freeIndexes) && idToIndex == old(idToIndex) && queued == old(queued)
      ensures forall j | 0 <= j < MAX_ACTIVE_BATCHES_NUMBER :: runs[j].included == old(runs[j].included)
    {
      WriteRunHeader(k, id, time);
      label written:
      ids := ids[k := id];
      times := times[k := time];
      KeepAll@written();
      forall j | 0 <= j < MAX_ACTIVE_BATCHES_NUMBER
        ensures IdOf(j) == ids[j] && TimeOf(j) == times[j]
      {
      }
    }

    /** The buffer half of `WriteHeader`: run `k` reads back the new header, every other run its old one. */
    method WriteRunHeader(k: int, id: int64, time: int64)
      requires PoolOk() && 0 <= k < MAX_ACTIVE_BATCHES_NUMBER
      modifies buffers[k]
      ensures PoolOk() && IdOf(k) == id && TimeOf(k) == time
      ensures forall j | 0 <= j < MAX_ACTIVE_BATCHES_NUMBER && j != k :: IdOf(j) == old(IdOf(j)) && TimeOf(j) == old(TimeOf(j))
      ensures forall j | 0 <= j < MAX_ACTIVE_BATCHES_NUMBER :: runs[j].included == old(runs[j].included)
    {
      var run := runs[k];
      assert RunOk(k);
      run.SetId(id);
      run.SetLastUpdateTimestamp(time);
      KeepOthers(k);
      KeepOtherHeaders(k);
    }

    /**
      `create`: with no free index, IndexOutOfBoundsException and nothing
      changes; otherwise the first free index leaves the queue, its run
      takes the id and the current time, the id maps to it and it joins the
      clean-up queue. No other run changes.
    */
    method Create(id: int64, now: int64) returns (r: Result<BatchRun>)
      requires Valid()
      modifies this, buffers
      ensures Valid()
      ensures old(freeIndexes) == [] ==> r == Err(IndexOutOfBounds) && unchanged(this)
      ensures old(freeIndexes) != [] ==>
        && r == Ok(runs[old(freeIndexes)[0]]) && freeIndexes == old(freeIndexes)[1..]
        && old(freeIndexes)[0] !in old(queued) && queued == old(queued) + {old(freeIndexes)[0]}
        && idToIndex == old(idToIndex)[id := old(freeIndexes)[0]]
        && ids == old(ids)[old(freeIndexes)[0] := id] && times == old(times)[old(freeIndexes)[0] := now]
        && r.value.included == {}
    {
      if |freeIndexes| == 0 {
        return Err(IndexOutOfBounds);
      }
      var index := freeIndexes[0];
      BooksAfterCreate(freeIndexes, queued, ids, idToIndex, id);
      WriteHeader(index, id, now);
      freeIndexes := freeIndexes[1..];
      idToIndex := idToIndex[id := index];
      queued := queued + {index};
      r := Ok(runs[index]);
    }

    /**
      `get`: the run the id maps to, or nothing (the source's `null`) for an
      unmapped id. The run found is live and holds that id.
    */
    method Get(id: int64) returns (r: Option<BatchRun>)
      requires Valid()
      ensures r.Some? <==> id in idToIndex
      ensures r.Some? ==> idToIndex[id] in queued && r.value == runs[idToIndex[id]] && IdOf(idToIndex[id]) == id
    {
      if id !in idToIndex {
        return None;
      }
      var index := idToIndex[id];
      r := Some(runs[index]);
    }

    /** `size`: the number of mapped ids. */
    method Size() returns (n: nat)
      requires Valid()
      ensures n == |idToIndex| && n <= |queued|
    {
      IdsInjective();
      n := |idToIndex|;
    }

    /** Distinct ids map to distinct live runs, so there are no more ids than live runs. */
    lemma IdsInjective()
      requires Valid()
      ensures |idToIndex| <= |queued|
    {
      MapSize(idToIndex, queued, ids);
    }

    /** Free indexes and live runs together fill the pool. */
    lemma Capacity()
      requires Valid()
      ensures |freeIndexes| + |queued| == MAX_ACTIVE_BATCHES_NUMBER
    {
      FreePlusLive(freeIndexes, queued, ids, idToIndex);
    }

    /**
      `removeAll`, as the repository's contract describes it: every live
      run is removed, after which no id is mapped and every index is free.
    */
    method RemoveAll()
      requires Valid()
      modifies this, Repr
      ensures Valid() && queued == {} && idToIndex == map[] && |freeIndexes| == MAX_ACTIVE_BATCHES_NUMBER
    {
      while |queued| != 0
        invariant Valid()
        decreases |queued|
      {
        ghost var some := Member(queued);
        var k :| k in queued;
        assert k in LiveOf(freeIndexes);
        assert RunOk(k);
        Remove(runs[k]);
      }
      Capacity();
      assert forall id :: id !in idToIndex;
    }

    /**
      `remove`: the run is reset (its header kept), its index goes to the
      back of the free queue, it leaves the clean-up queue and its id is
      unmapped. No other run changes.
    */
    method Remove(run: BatchRun)
      requires Valid() && 0 <= run.index < MAX_ACTIVE_BATCHES_NUMBER as int32
      requires run == runs[run.index] && run.index as int in queued
      modifies this, run, buffers[run.index], run.block.priceRecord
      ensures Valid()
      ensures freeIndexes == old(freeIndexes) + [run.index as int] && queued == old(queued) - {run.index as int}
      ensures idToIndex == old(idToIndex) - {ids[run.index]}
      ensures ids == old(ids) && times == old(times) && run.included == {}
      ensures forall j | 0 <= j < MAX_ACTIVE_BATCHES_NUMBER && j != run.index as int :: runs[j].included == old(runs[j].included)
    {
      var k := run.index as int;
      BooksAfterRemove(freeIndexes, queued, ids, idToIndex, k);
      ResetRun(k);
      label reset:
      var id := IdOf(k);
      freeIndexes := freeIndexes + [k];
      queued := queued - {k};
      idToIndex := idToIndex - {id};
      KeepAll@reset();
    }

    /**
      `save`: the live run takes the current time as its last-update time
      and keeps its place in the clean-up queue; nothing else changes.
    */
    method Save(run: BatchRun, now: int64)
      requires Valid() && 0 <= run.index < MAX_ACTIVE_BATCHES_NUMBER as int32
      requires run == runs[run.index] && run.index as int in queued
      modifies this, buffers[run.index]
      ensures Valid()
      ensures times == old(times)[run.index := now] && ids == old(ids)
      ensures freeIndexes == old(freeIndexes) && queued == old(queued) && idToIndex == old(idToIndex)
      ensures forall j | 0 <= j < MAX_ACTIVE_BATCHES_NUMBER :: runs[j].included == old(runs[j].included)
      ensures BATCH_RUN_HEADER_SIZE <= buffers[run.index].Length
      ensures buffers[run.index][BATCH_RUN_HEADER_SIZE..] == old(buffers[run.index][BATCH_RUN_HEADER_SIZE..])
    {
      var k := run.index as int;
      WriteRunTime(k, now);
      label written:
      times := times[k := now];
      KeepAll@written();
      forall j | 0 <= j < MAX_ACTIVE_BATCHES_NUMBER
        ensures IdOf(j) == ids[j] && TimeOf(j) == times[j]
      {
      }
    }

    /** The buffer half of `save`: run `k` reads back the new time and its old id, every other run its old header. */
    method WriteRunTime(k: int, time: int64)
      requires PoolOk() && 0 <= k < MAX_ACTIVE_BATCHES_NUMBER
      modifies buffers[k]
      ensures PoolOk() && IdOf(k) == old(IdOf(k)) && TimeOf(k) == time
      ensures forall j | 0 <= j < MAX_ACTIVE_BATCHES_NUMBER && j != k :: IdOf(j) == old(IdOf(j)) && TimeOf(j) == old(TimeOf(j))
      ensures forall j | 0 <= j < MAX_ACTIVE_BATCHES_NUMBER :: runs[j].included == old(runs[j].included)
      ensures BATCH_RUN_HEADER_SIZE <= buffers[k].Length && buffers[k][BATCH_RUN_HEADER_SIZE..] == old(buffers[k][BATCH_RUN_HEADER_SIZE..])
    {
      var run := runs[k];
      assert RunOk(k);
      ghost var s0 := buffers[k][..];
      run.SetLastUpdateTimestamp(time);
      SpliceWithin(s0, LAST_UPDATE_TIMESTAMP_FIELD_OFFSET, EncodeLong(time), 0, BATCH_RUN_HEADER_SIZE);
      KeepOthers(k);
      KeepOtherHeaders(k);
    }

    /** The clean-up queue's head: a live run with the oldest last-update time. */
    lemma OldestLive() returns (k: int)
      requires Valid() && queued != {}
      ensures k in queued && 0 <= k < MAX_ACTIVE_BATCHES_NUMBER
      ensures forall j | j in queued && 0 <= j < MAX_ACTIVE_BATCHES_NUMBER :: TimeOf(k) <= TimeOf(j)
    {
      k := OldestExists(times, queued);
    }

    /**
      `removeOutdated`: while fewer than `limit` runs are removed and the
      clean-up queue is not empty, the run with the oldest last-update time
      is removed and handed on, unless it was updated after `now -
      evictionTime` (with the source's wrap-around), which stops the sweep.
      The runs handed on, in order, are pool runs that were live and
      outdated, each no newer than the next and than any run left; when
      fewer than `limit` were removed, no live run is outdated any more.
    */
    method RemoveOutdated(evictionTime: int64, limit: int32, now: int64)
      returns (removed: int32, evicted: seq<BatchRun>, ghost gone: seq<int>)
      requires Valid()
      modifies this, Repr
      ensures Valid() && ids == old(ids) && times == old(times)
      ensures 0 <= removed as int == |evicted| == |gone| && (removed == 0 || removed <= limit)
      ensures forall a | 0 <= a < |gone| :: 0 <= gone[a] < MAX_ACTIVE_BATCHES_NUMBER && evicted[a] == runs[gone[a]]
      ensures Swept(old(queued), old(freeIndexes), old(idToIndex), ids, times, queued, freeIndexes, idToIndex,
                    gone, SubLong(now, evictionTime))
      ensures removed < limit ==> forall j | j in queued :: SubLong(now, evictionTime) < times[j]
    {
      var lastAllowed := SubLong(now, evictionTime);
      removed, evicted, gone := 0, [], [];
      while removed < limit && |queued| != 0
        invariant Valid() && ids == old(ids) && times == old(times)
        invariant 0 <= removed as int == |evicted| == |gone| && (removed == 0 || removed <= limit)
        invariant forall a | 0 <= a < |gone| :: 0 <= gone[a] < MAX_ACTIVE_BATCHES_NUMBER && evicted[a] == runs[gone[a]]
        invariant Swept(old(queued), old(freeIndexes), old(idToIndex), ids, times, queued, freeIndexes, idToIndex,
                        gone, lastAllowed)
        decreases |queued|
      {
        var popped, k := PopOutdated(lastAllowed, old(queued), old(freeIndexes), old(idToIndex), gone);
        if popped.None? {
          break;
        }
        AtRuns(runs, evicted, gone, k);
        removed := removed + 1;
        evicted := evicted + [popped.value];
        gone := gone + [k];
      }
    }

    /**
      One step of `removeOutdated`: the run at the head of the clean-up
      queue (the oldest one) is removed when it is outdated; otherwise
      nothing changes and no live run is outdated.
    */
    method PopOutdated(lastAllowed: int64, ghost q0: set<int>, ghost f0: seq<int>, ghost m0: map<int64, int>, ghost gone: seq<int>)
      returns (popped: Option<BatchRun>, ghost k: int)
      requires Valid() && queued != {}
      requires Swept(q0, f0, m0, ids, times, queued, freeIndexes, idToIndex, gone, lastAllowed)
      modifies this, Repr
      ensures Valid() && ids == old(ids) && times == old(times)
      ensures popped.None? ==>
        && queued == old(queued) && freeIndexes == old(freeIndexes) && idToIndex == old(idToIndex)
        && forall j | j in queued :: lastAllowed < times[j]
      ensures popped.Some? ==>
        && 0 <= k < MAX_ACTIVE_BATCHES_NUMBER && popped.value == runs[k] && queued == old(queued) - {k} && k in old(queued)
        && Swept(q0, f0, m0, ids, times, queued, freeIndexes, idToIndex, gone + [k], lastAllowed)
    {
      ghost var head := OldestLive();
      var oldest :| oldest in queued && 0 <= oldest < MAX_ACTIVE_BATCHES_NUMBER
        && forall j | j in queued && 0 <= j < MAX_ACTIVE_BATCHES_NUMBER :: TimeOf(oldest) <= TimeOf(j);
      k := oldest;
      var run := runs[oldest];
      OldestTime(oldest);
      if lastAllowed < TimeOf(oldest) {
        return None, k;
      }
      assert RunOk(oldest);
      SweptStep(q0, f0, m0, ids, times, queued, freeIndexes, idToIndex, gone, lastAllowed, oldest);
      Remove(run);
      popped := Some(run);
    }

    /** What `TimeOf` says about the live runs, said about the ghost times. */
    lemma OldestTime(k: int)
      requires Valid() && k in queued && 0 <= k < MAX_ACTIVE_BATCHES_NUMBER
      requires forall j | j in queued && 0 <= j < MAX_ACTIVE_BATCHES_NUMBER :: TimeOf(k) <= TimeOf(j)
      ensures TimeOf(k) == times[k] && |times| == MAX_ACTIVE_BATCHES_NUMBER
      ensures forall j | j in queued :: 0 <= j < |times| && times[k] <= times[j]
    {
      forall j | j in queued
        ensures 0 <= j < |times| && times[k] <= times[j]
      {
        assert j in LiveOf(freeIndexes);
      }
    }

    /**
      The one-argument `removeOutdated`: at most one outdated run is
      removed, and the answer says whether one was. The run removed is the
      head of the clean-up queue, the oldest queued run.
    */
    method RemoveOutdatedOne(evictionTimeout: int64, now: int64) returns (b: bool)
      requires Valid()
      modifies this, Repr
      ensures Valid() && ids == old(ids) && times == old(times)
      ensures b ==> exists k | k in old(queued) && 0 <= k < MAX_ACTIVE_BATCHES_NUMBER ::
        && times[k] <= SubLong(now, evictionTimeout)
        && (forall j | j in old(queued) && 0 <= j < |times| :: times[k] <= times[j])
        && Bookkeeping() == Ledger(old(freeIndexes) + [k], old(idToIndex) - {ids[k]}, old(queued) - {k})
      ensures !b ==> Bookkeeping() == old(Bookkeeping()) && forall j | j in queued :: SubLong(now, evictionTimeout) < times[j]
    {
      var removed, evicted, gone := RemoveOutdated(evictionTimeout, 1, now);
      SweptAtMostOne(old(queued), old(freeIndexes), old(idToIndex), ids, times, queued, freeIndexes, idToIndex,
                     gone, SubLong(now, evictionTimeout));
      b := removed == 1;
      if b {
        var k := gone[0];
        assert k in old(queued) && 0 <= k < MAX_ACTIVE_BATCHES_NUMBER && times[k] <= SubLong(now, evictionTimeout);
        assert Bookkeeping() == Ledger(old(freeIndexes) + [k], old(idToIndex) - {ids[k]}, old(queued) - {k});
      }
    }

    /** The buffer half of `remove`: run `k` is reset, every header and every other run kept. */
    method ResetRun(k: int)
      requires PoolOk() && 0 <= k < MAX_ACTIVE_BATCHES_NUMBER
      modifies runs[k], buffers[k], runs[k].block.priceRecord
      ensures PoolOk() && runs[k].included == {}
      ensures forall j | 0 <= j < MAX_ACTIVE_BATCHES_NUMBER :: IdOf(j) == old(IdOf(j)) && TimeOf(j) == old(TimeOf(j))
      ensures forall j | 0 <= j < MAX_ACTIVE_BATCHES_NUMBER && j != k :: runs[j].included == old(runs[j].included)
    {
      var run := runs[k];
      assert RunOk(k);
      forall j | 0 <= j < MAX_ACTIVE_BATCHES_NUMBER && j != k
        ensures runs[j] != run && runs[j].block.view != run.block.priceRecord && buffers[j] != buffers[k]
      {
        assert RunOk(j);
      }
      run.Reset();
      KeepOthers(k);
      KeepOtherHeaders(k);
    }
  }

  /**
    A sweep of the clean-up queue from (`q0`, `f0`, `m0`) that has removed
    the runs at `gone`, in that order: they went to the back of the free
    queue, left the clean-up queue and had their ids unmapped; each was
    live and no newer than `lastAllowed`, each no newer than the next, and
    none newer than a run still queued.
  */
  ghost predicate Swept(q0: set<int>, f0: seq<int>, m0: map<int64, int>, ids: seq<int64>, times: seq<int64>,
                        q: set<int>, f: seq<int>, m: map<int64, int>, gone: seq<int>, lastAllowed: int64)
  {
    SweptBooks(q0, f0, m0, ids, q, f, m, gone) && SweptOrder(q0, times, q, gone, lastAllowed)
  }

  /** The bookkeeping half of `Swept`. */
  ghost predicate SweptBooks(q0: set<int>, f0: seq<int>, m0: map<int64, int>, ids: seq<int64>,
                             q: set<int>, f: seq<int>, m: map<int64, int>, gone: seq<int>)
  {
    && f == f0 + gone
    && (forall j :: j in q <==> j in q0 && j !in gone)
    && m == m0 - IdsAt(ids, gone)
  }

  /** The time half of `Swept`. */
  ghost predicate SweptOrder(q0: set<int>, times: seq<int64>, q: set<int>, gone: seq<int>, lastAllowed: int64)
  {
    && (forall a | 0 <= a < |gone| :: gone[a] in q0 && 0 <= gone[a] < |times| && times[gone[a]] <= lastAllowed)
    && (forall a, b | 0 <= a < b < |gone| :: times[gone[a]] <= times[gone[b]])
    && (forall a, j | 0 <= a < |gone| && j in q && 0 <= j < |times| :: times[gone[a]] <= times[j])
  }

  /** A sweep that removed at most one run: none leaves every queue as it was, one moved exactly that run. */
  lemma SweptAtMostOne(q0: set<int>, f0: seq<int>, m0: map<int64, int>, ids: seq<int64>, times: seq<int64>,
                       q: set<int>, f: seq<int>, m: map<int64, int>, gone: seq<int>, lastAllowed: int64)
    requires Swept(q0, f0, m0, ids, times, q, f, m, gone, lastAllowed)
    requires |gone| <= 1 && (|gone| == 1 ==> 0 <= gone[0] < |ids|)
    ensures |gone| == 0 ==> q == q0 && f == f0 && m == m0
    ensures |gone| == 1 ==>
      && gone[0] in q0 && 0 <= gone[0] < |times| && times[gone[0]] <= lastAllowed
      && (forall j | j in q0 && 0 <= j < |times| :: times[gone[0]] <= times[j])
      && q == q0 - {gone[0]} && f == f0 + [gone[0]] && m == m0 - {ids[gone[0]]}
  {
    if |gone| == 1 {
      assert gone == [gone[0]];
      assert IdsAt(ids, gone) == {ids[gone[0]]};
      assert forall j :: j in q <==> j in q0 - {gone[0]};
    } else {
      assert gone == [];
      assert IdsAt(ids, gone) == {};
      assert forall j :: j in q <==> j in q0;
    }
  }

  /** Removing the oldest queued run, when it is outdated, extends the sweep by it. */
  lemma SweptStep(q0: set<int>, f0: seq<int>, m0: map<int64, int>, ids: seq<int64>, times: seq<int64>,
                  q: set<int>, f: seq<int>, m: map<int64, int>, gone: seq<int>, lastAllowed: int64, k: int)
    requires Swept(q0, f0, m0, ids, times, q, f, m, gone, lastAllowed)
    requires k in q && 0 <= k < |times| && |ids| == |times| && times[k] <= lastAllowed
    requires forall j | j in q && 0 <= j < |times| :: times[k] <= times[j]
    ensures Swept(q0, f0, m0, ids, times, q - {k}, f + [k], m - {ids[k]}, gone + [k], lastAllowed)
  {
    SweptBooksStep(q0, f0, m0, ids, q, f, m, gone, k);
    SweptOrderStep(q0, times, q, gone, lastAllowed, k);
  }

  lemma SweptBooksStep(q0: set<int>, f0: seq<int>, m0: map<int64, int>, ids: seq<int64>,
                       q: set<int>, f: seq<int>, m: map<int64, int>, gone: seq<int>, k: int)
    requires SweptBooks(q0, f0, m0, ids, q, f, m, gone)
    requires k in q && 0 <= k < |ids|
    ensures SweptBooks(q0, f0, m0, ids, q - {k}, f + [k], m - {ids[k]}, gone + [k])
  {
    var g := gone + [k];
    assert IdsAt(ids, g) == IdsAt(ids, gone) + {ids[k]} by {
      forall id | id in IdsAt(ids, g)
        ensures id in IdsAt(ids, gone) + {ids[k]}
      {
        var a :| 0 <= a < |g| && 0 <= g[a] < |ids| && ids[g[a]] == id;
        if a < |gone| {
          assert gone[a] == g[a];
        }
      }
      forall id | id in IdsAt(ids, gone)
        ensures id in IdsAt(ids, g)
      {
        var a :| 0 <= a < |gone| && 0 <= gone[a] < |ids| && ids[gone[a]] == id;
        assert g[a] == gone[a];
      }
      assert g[|gone|] == k;
    }
    MinusMinus(m0, IdsAt(ids, gone), ids[k]);
    forall j
      ensures j in q - {k} <==> j in q0 && j !in g
    {
      if j in g && j != k {
        var a :| 0 <= a < |g| && g[a] == j;
        assert gone[a] == j;
      }
    }
  }

  lemma MinusMinus(m: map<int64, int>, s: set<int64>, x: int64)
    ensures m - s - {x} == m - (s + {x})
  { }

  lemma SweptOrderStep(q0: set<int>, times: seq<int64>, q: set<int>, gone: seq<int>, lastAllowed: int64, k: int)
    requires SweptOrder(q0, times, q, gone, lastAllowed)
    requires forall j :: j in q ==> j in q0 && j !in gone
    requires k in q && 0 <= k < |times| && times[k] <= lastAllowed
    requires forall j | j in q && 0 <= j < |times| :: times[k] <= times[j]
    ensures SweptOrder(q0, times, q - {k}, gone + [k], lastAllowed)
  {
    var g := gone + [k];
    forall a | 0 <= a < |g|
      ensures g[a] in q0 && 0 <= g[a] < |times| && times[g[a]] <= lastAllowed
    {
      if a < |gone| {
        assert g[a] == gone[a];
      }
    }
    forall a, b | 0 <= a < b < |g|
      ensures times[g[a]] <= times[g[b]]
    {
      if b < |gone| {
        assert g[a] == gone[a] && g[b] == gone[b];
      } else {
        assert g[a] == gone[a];
      }
    }
    forall a, j | 0 <= a < |g| && j in q - {k} && 0 <= j < |times|
      ensures times[g[a]] <= times[j]
    {
      if a < |gone| {
        assert g[a] == gone[a];
      }
    }
  }

  /** Appending a pool index and its run keeps the runs matching their indexes. */
  lemma AtRuns(runs: seq<BatchRun>, evicted: seq<BatchRun>, gone: seq<int>, k: int)
    requires |evicted| == |gone| && 0 <= k < |runs|
    requires forall a | 0 <= a < |gone| :: 0 <= gone[a] < |runs| && evicted[a] == runs[gone[a]]
    ensures forall a | 0 <= a < |gone| + 1 :: 0 <= (gone + [k])[a] < |runs| && (evicted + [runs[k]])[a] == runs[(gone + [k])[a]]
  {
  }

  /** A map whose entries `id -> i` satisfy `ids[i] == id` is no larger than the set of its values. */
  lemma {:induction false} MapSize(m: map<int64, int>, values: set<int>, ids: seq<int64>)
    requires forall id | id in m :: m[id] in values && 0 <= m[id] < |ids| && ids[m[id]] == id
    ensures |m| <= |values|
    decreases |m|
  {
    if m != map[] {
      var id :| id in m;
      var i := m[id];
      var rest := m - {id};
      forall other | other in rest
        ensures rest[other] in values - {i}
      {
        assert ids[rest[other]] == other;
      }
      MapSize(rest, values - {i}, ids);
      assert |rest| == |m| - 1;
    }
  }
}
