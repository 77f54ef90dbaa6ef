/** The in-memory storage of `app/bot_core.py`: the external-id counter, the
    bounded history used by `/stats` and `/export`, and the index from
    external id to the backend references of a submission. */
module BotCore {
  import opened Wrappers
  import opened Helpers

  /** `TASK_INDEX[external_id]`. */
  datatype Entry = Entry(taskId: Option<int>, crmItemId: Option<int>, channelMessageId: int, status: string)

  /** One element of `HISTORY`. */
  datatype Record = Record(
    id: string,
    date: int,
    language: string,
    name: string,
    phone: string,
    category: string,
    status: string,
    textLen: nat,
    attachmentsCount: nat)

  /** `ID_COUNTER`, `HISTORY` (a deque of at most `lookback` records) and `TASK_INDEX`. */
  datatype Store = Store(counter: nat, history: seq<Record>, index: map<string, Entry>, lookback: nat)

  /** The storage at start-up; `deque(maxlen=...)` rejects a negative length. */
  function NewStore(lookback: int): (s: Option<Store>)
    ensures lookback < 0 <==> s.None?
    ensures s.Some? ==> s.value.counter == 0 && s.value.history == [] && s.value.index == map[]
    ensures s.Some? ==> s.value.lookback == lookback && Valid(s.value)
  {
    if lookback < 0 then None else Some(Store(0, [], map[], lookback))
  }

  /** `deque.append` on a deque with `maxlen = cap`: the newest `cap` of the
      old records and the new one. */
  function DequeAppend(h: seq<Record>, r: Record, cap: nat): (h2: seq<Record>)
    ensures |h2| <= cap
    ensures |h2| == if |h| < cap then |h| + 1 else cap
    ensures h2 == (h + [r])[|h| + 1 - |h2|..]
  {
    if |h| < cap then h + [r] else (h + [r])[|h| + 1 - cap..]
  }

  /** Appending to a history that is not full keeps every record and puts the new one last. */
  lemma AppendNotFull(h: seq<Record>, r: Record, cap: nat)
    requires |h| < cap
    ensures DequeAppend(h, r, cap) == h + [r]
  {
  }

  /** Appending to a full history drops exactly the oldest record, keeps the
      others in order and puts the new one last. */
  lemma AppendFull(h: seq<Record>, r: Record, cap: nat)
    requires |h| == cap > 0
    ensures DequeAppend(h, r, cap) == h[1..] + [r]
  {
    assert (h + [r])[1..] == h[1..] + [r];
  }

  /** A history without room (`maxlen = 0`) stays empty. */
  lemma AppendNoRoom(h: seq<Record>, r: Record)
    requires |h| == 0
    ensures DequeAppend(h, r, 0) == []
  {
  }

  /** The sequence number of an external id, 0 when it has none. */
  function SeqNo(id: string): nat {
    SequenceOf(id).GetOr(0)
  }

  /** The storage invariant: the history fits its bound, every indexed id was
      minted from the counter, every history record is indexed, and history
      records are in minting order (so no id appears twice). */
  predicate Valid(st: Store) {
    && |st.history| <= st.lookback
    && (forall id :: id in st.index ==> SequenceOf(id).Some? && 1 <= SeqNo(id) <= st.counter)
    && (forall i :: 0 <= i < |st.history| ==> st.history[i].id in st.index)
    && InMintOrder(st.history)
  }

  /** Records in strictly increasing order of their ids' sequence numbers. */
  predicate InMintOrder(h: seq<Record>) {
    forall i, j :: 0 <= i < j < |h| ==> SeqNo(h[i].id) < SeqNo(h[j].id)
  }

  /** What any step may do to the storage: the counter never goes back, no
      index entry is removed and the history bound stays. */
  predicate Grows(a: Store, b: Store) {
    a.counter <= b.counter && a.index.Keys <= b.index.Keys && a.lookback == b.lookback
  }

  /** Under the invariant the history holds each id at most once. */
  lemma HistoryIdsDistinct(st: Store, i: int, j: int)
    requires Valid(st)
    requires 0 <= i < |st.history| && 0 <= j < |st.history| && i != j
    ensures st.history[i].id != st.history[j].id
  {
    if i < j {
      assert SeqNo(st.history[i].id) < SeqNo(st.history[j].id);
    } else {
      assert SeqNo(st.history[j].id) < SeqNo(st.history[i].id);
    }
  }

  /** An id whose sequence number is beyond the counter is not indexed yet. */
  lemma FreshId(st: Store, id: string)
    requires Valid(st)
    requires SeqNo(id) > st.counter
    ensures id !in st.index
  {
  }

  /** Recording a submission minted from the next counter value keeps the invariant. */
  lemma RecordKeepsValid(st: Store, id: string, e: Entry, r: Record)
    requires Valid(st)
    requires SequenceOf(id) == Some(st.counter + 1) && r.id == id
    ensures Valid(Store(st.counter + 1, DequeAppend(st.history, r, st.lookback), st.index[id := e], st.lookback))
  {
    HistoryBelowCounter(st);
    AppendIndexed(st.history, r, st.lookback, st.index[id := e]);
    AppendOrdered(st.history, r, st.lookback, st.counter);
  }

  /** Every history record was minted at or before the current counter value. */
  lemma HistoryBelowCounter(st: Store)
    requires Valid(st)
    ensures forall i :: 0 <= i < |st.history| ==> SeqNo(st.history[i].id) <= st.counter
  {
  }

  /** Recording a submission under a freshly minted id adds exactly that key
      to the index and leaves every other entry as it was. */
  lemma RecordWritesOneEntry(st: Store, id: string, e: Entry, r: Record)
    requires Valid(st)
    requires SequenceOf(id) == Some(st.counter + 1)
    ensures var b := Store(st.counter + 1, DequeAppend(st.history, r, st.lookback), st.index[id := e], st.lookback);
            && id !in st.index
            && b.index.Keys == st.index.Keys + {id}
            && (forall k :: k in st.index ==> b.index[k] == st.index[k])
            && b.index[id] == e
  {
    FreshId(st, id);
  }

  /** Every record after an append is indexed when the old ones and the new one are. */
  lemma AppendIndexed(h: seq<Record>, r: Record, cap: nat, index: map<string, Entry>)
    requires forall i :: 0 <= i < |h| ==> h[i].id in index
    requires r.id in index
    ensures forall i :: 0 <= i < |DequeAppend(h, r, cap)| ==> DequeAppend(h, r, cap)[i].id in index
  {
    var all := h + [r];
    assert forall i :: 0 <= i < |all| ==> all[i].id in index by {
      forall i | 0 <= i < |all|
        ensures all[i].id in index
      {
        if i < |h| {
          assert all[i] == h[i];
        }
      }
    }
    SuffixIndexed(all, |all| - |DequeAppend(h, r, cap)|, index);
  }

  lemma SuffixIndexed(all: seq<Record>, k: nat, index: map<string, Entry>)
    requires k <= |all|
    requires forall i :: 0 <= i < |all| ==> all[i].id in index
    ensures forall i :: 0 <= i < |all[k..]| ==> all[k..][i].id in index
  {
    assert forall i :: 0 <= i < |all[k..]| ==> all[k..][i] == all[k + i];
  }

  /** Appending a record numbered after every old one keeps the history in minting order. */
  lemma AppendOrdered(h: seq<Record>, r: Record, cap: nat, c: nat)
    requires InMintOrder(h)
    requires forall i :: 0 <= i < |h| ==> SeqNo(h[i].id) <= c
    requires SeqNo(r.id) == c + 1
    ensures InMintOrder(DequeAppend(h, r, cap))
  {
    OrderedWithNew(h, r, c);
    SuffixOrdered(h + [r], |h| + 1 - |DequeAppend(h, r, cap)|);
  }

  lemma OrderedWithNew(h: seq<Record>, r: Record, c: nat)
    requires InMintOrder(h)
    requires forall i :: 0 <= i < |h| ==> SeqNo(h[i].id) <= c
    requires SeqNo(r.id) == c + 1
    ensures InMintOrder(h + [r])
  {
    var all := h + [r];
    forall i, j | 0 <= i < j < |all|
      ensures SeqNo(all[i].id) < SeqNo(all[j].id)
    {
      assert all[i] == h[i];
      if j < |h| {
        assert all[j] == h[j];
      }
    }
  }

  /** Changing what the entries and records say, without changing the
      counter, the indexed ids or the history's ids, keeps the invariant. */
  lemma SameIdsKeepValid(st: Store, st2: Store)
    requires Valid(st)
    requires st2.counter == st.counter && st2.lookback == st.lookback
    requires st2.index.Keys == st.index.Keys
    requires |st2.history| == |st.history|
    requires forall i :: 0 <= i < |st.history| ==> st2.history[i].id == st.history[i].id
    ensures Valid(st2) && Grows(st, st2)
  {
    SameIdsOrdered(st.history, st2.history);
    forall i | 0 <= i < |st2.history|
      ensures st2.history[i].id in st2.index
    {
      assert st.history[i].id in st.index;
    }
  }

  /** Changing records without changing their ids keeps the order. */
  lemma SameIdsOrdered(h: seq<Record>, h2: seq<Record>)
    requires |h2| == |h| && forall i :: 0 <= i < |h| ==> h2[i].id == h[i].id
    requires InMintOrder(h)
    ensures InMintOrder(h2)
  {
    forall i, j | 0 <= i < j < |h2|
      ensures SeqNo(h2[i].id) < SeqNo(h2[j].id)
    {
      assert h2[i].id == h[i].id && h2[j].id == h[j].id;
    }
  }

  /** Dropping the oldest records keeps the order. */
  lemma SuffixOrdered(all: seq<Record>, k: nat)
    requires k <= |all|
    requires InMintOrder(all)
    ensures InMintOrder(all[k..])
  {
    assert forall i :: 0 <= i < |all[k..]| ==> all[k..][i] == all[k + i];
  }
}
