/**
  Long-term memory as a client of the database protocol: concurrent `save_memory` calls, each of
  which writes a memory row and then its keyword-index entry, and `run_auto_dream`, which reads a
  batch of episodes, saves a summary and marks the batch (`memory/store.py`). Any interleaving of
  these coroutines with each other, with other callers, and with crashes is a list of events.
*/
module MemoryStore {
  import opened Wrappers
  import opened DatabaseProtocol
  import opened Sorting

  datatype Kind = Episodic | Semantic

  datatype Memory = Memory(content: string, kind: Kind, created: real, consolidated: bool)

  datatype Entry = Entry(rowid: int, content: string)

  // `created` is the engine's clock when the row is inserted; `next` is the next automatic row id; row
  // ids are never reused.
  datatype Tables = Tables(memories: map<int, Memory>, next: int, index: seq<Entry>)

  datatype Statement =
    | InsertMemory(content: string, kind: Kind, created: real)
    | InsertIndex(rowid: int, content: string)
    | FetchEpisodes(cutoff: real)
    | MarkConsolidated(ids: seq<int>)
    | Other  // a statement on other tables

  // Whether a statement raises is decided by the environment when it is submitted.
  datatype Sql = Sql(stmt: Statement, raises: bool)

  const EMPTY: Tables := Tables(map[], 1, [])

  const BATCH_LIMIT: nat := 50

  predicate Eligible(m: Memory, cutoff: real) {
    m.kind.Episodic? && !m.consolidated && m.created > cutoff
  }

  // The rows WHERE keeps, up to row id n.
  function EligibleIds(t: Tables, cutoff: real, n: int): seq<int>
    decreases if n < 0 then 0 else n
  {
    if n < 1 then []
    else EligibleIds(t, cutoff, n - 1)
         + (if n in t.memories && Eligible(t.memories[n], cutoff) then [n] else [])
  }

  function CreatedAt(t: Tables): int -> real {
    r => if r in t.memories then t.memories[r].created else 0.0
  }

  /** ORDER BY created_at DESC LIMIT 50 */
  function Newest(t: Tables, cutoff: real): seq<int> {
    Take(SortDesc(EligibleIds(t, cutoff, t.next - 1), CreatedAt(t)), BATCH_LIMIT)
  }

  function Marked(memories: map<int, Memory>, ids: seq<int>): map<int, Memory> {
    map r | r in memories :: if r in ids then memories[r].(consolidated := true) else memories[r]
  }

  function Apply(t: Tables, q: Sql): Outcome<Tables, int> {
    if q.raises then Raise else
    match q.stmt
    case InsertMemory(content, kind, created) =>
      Done(t.(memories := t.memories[t.next := Memory(content, kind, created, false)], next := t.next + 1),
           [], t.next)
    case InsertIndex(rowid, content) => Done(t.(index := t.index + [Entry(rowid, content)]), [], rowid)
    case FetchEpisodes(cutoff) => Done(t, Newest(t, cutoff), 0)
    case MarkConsolidated(ids) => Done(t.(memories := Marked(t.memories, ids)), [], 0)
    case Other => Done(t, [], 0)
  }

  type Db = State<Tables, Sql, int>

  datatype Status = Running | Returned | Aborted

  // The index write, once the row id of the memory is known.
  datatype Link = Link(index: nat, rowid: int)

  datatype Save = Save(content: string, kind: Kind, insert: nat, link: Option<Link>, status: Status)

  datatype Dream = Dream(cutoff: real, fetch: nat, batch: Option<seq<int>>, save: Option<nat>,
                         mark: Option<nat>, over: bool)

  // `owner` and `marker` are history: the save and the dream a request belongs to.
  datatype Store = Store(db: Db, saves: seq<Save>, dreams: seq<Dream>,
                         owner: map<nat, nat>, marker: map<nat, nat>)

  datatype Event =
    | Protocol(step: Step<Sql>)  // anything but a submission
    | OtherCall(mode: Mode, raises: bool)
    | StartSave(content: string, kind: Kind, created: real, raises: bool)
    | ResumeSave(k: nat, raises: bool)
    | AbandonSave(k: nat)
    | StartDream(cutoff: real, raises: bool)
    | ResumeDream(raises: bool)
    | Summarize(summary: Option<string>, created: real, raises: bool)  // the model's answer, None if it raised
    | AbandonDream

  const START: Store := Store(Init(EMPTY), [], [], map[], map[])

  function Submitted(db: Db, stmt: Statement, mode: Mode, raises: bool): Db {
    Next(Apply, db, Submit(Request(Sql(stmt, raises), mode)))
  }

  function StartSaveIn(s: Store, content: string, kind: Kind, created: real, raises: bool): Store {
    var q := |s.db.requests|;
    s.(db := Submitted(s.db, InsertMemory(content, kind, created), NoFetch, raises),
       saves := s.saves + [Save(content, kind, q, None, Running)],
       owner := s.owner[q := |s.saves|])
  }

  function ResumeSaveIn(s: Store, k: nat, raises: bool): Store
    requires k < |s.saves|
  {
    var save := s.saves[k];
    var awaited := if save.link.Some? then save.link.value.index else save.insert;
    if !save.status.Running? || awaited >= |s.db.futures| || s.db.futures[awaited].Pending? then s
    else if !s.db.futures[awaited].Result? then s.(saves := s.saves[k := save.(status := Aborted)])
    else if save.link.Some? then s.(saves := s.saves[k := save.(status := Returned)])
    else if !s.db.futures[awaited].value.RowId? then s
    else
      var rowid := s.db.futures[awaited].value.id;
      var q := |s.db.requests|;
      s.(db := Submitted(s.db, InsertIndex(rowid, save.content), NoFetch, raises),
         saves := s.saves[k := save.(link := Some(Link(q, rowid)))],
         owner := s.owner[q := k])
  }

  function Last(s: Store): Dream
    requires s.dreams != []
  {
    s.dreams[|s.dreams| - 1]
  }

  function SetLast(s: Store, d: Dream): Store
    requires s.dreams != []
  {
    s.(dreams := s.dreams[|s.dreams| - 1 := d])
  }

  // The dream resumes from a fetch, from its save, or from its marking write.
  function ResumeDreamIn(s: Store, raises: bool): Store
    requires s.dreams != []
  {
    var d := Last(s);
    if d.over || d.fetch >= |s.db.futures| then s
    else if d.batch.None? then
      (match s.db.futures[d.fetch]
       case Pending => s
       case Result(Rows(rows)) =>
         if rows == [] then SetLast(s, d.(over := true)) else SetLast(s, d.(batch := Some(rows)))
       case _ => SetLast(s, d.(over := true)))
    else if d.save.None? || d.save.value >= |s.saves| then s
    else if d.mark.None? then
      (match s.saves[d.save.value].status
       case Running => s
       case Aborted => SetLast(s, d.(over := true))
       case Returned =>
         var q := |s.db.requests|;
         SetLast(s, d.(mark := Some(q))).(
           db := Submitted(s.db, MarkConsolidated(d.batch.value), NoFetch, raises),
           marker := s.marker[q := |s.dreams| - 1]))
    else if d.mark.value < |s.db.futures| && !s.db.futures[d.mark.value].Pending?
    then SetLast(s, d.(over := true))
    else s
  }

  function SummarizeIn(s: Store, summary: Option<string>, created: real, raises: bool): Store
    requires s.dreams != []
  {
    var d := Last(s);
    if d.over || d.batch.None? || d.save.Some? then s
    else if summary.None? || summary.value == "" then SetLast(s, d.(over := true))
    else StartSaveIn(SetLast(s, d.(save := Some(|s.saves|))), summary.value, Semantic, created, raises)
  }

  function After(s: Store, event: Event): Store {
    match event
    case Protocol(step) => if step.Submit? then s else s.(db := Next(Apply, s.db, step))
    case OtherCall(mode, raises) => s.(db := Submitted(s.db, Other, mode, raises))
    case StartSave(content, kind, created, raises) => StartSaveIn(s, content, kind, created, raises)
    case ResumeSave(k, raises) => if k < |s.saves| then ResumeSaveIn(s, k, raises) else s
    case AbandonSave(k) =>
      if k < |s.saves| && s.saves[k].status.Running?
      then s.(saves := s.saves[k := s.saves[k].(status := Aborted)]) else s
    case StartDream(cutoff, raises) =>
      // Dreams do not overlap: the daemon awaits one before it starts the next.
      if s.dreams != [] && !Last(s).over then s
      else s.(db := Submitted(s.db, FetchEpisodes(cutoff), FetchAll, raises),
              dreams := s.dreams + [Dream(cutoff, |s.db.requests|, None, None, None, false)])
    case ResumeDream(raises) => if s.dreams == [] then s else ResumeDreamIn(s, raises)
    case Summarize(summary, created, raises) =>
      if s.dreams == [] then s else SummarizeIn(s, summary, created, raises)
    case AbandonDream => if s.dreams == [] then s else SetLast(s, Last(s).(over := true))
  }

  function History(s: Store, events: seq<Event>): Store
    decreases |events|
  {
    if events == [] then s else History(After(s, events[0]), events[1..])
  }

  lemma HistoryTriple(s: Store, a: Event, b: Event, c: Event)
    ensures History(s, [a, b, c]) == After(After(After(s, a), b), c)
  {
    assert [a, b, c][1..] == [b, c] && [b, c][1..] == [c] && [c][1..] == [];
    assert History(After(After(s, a), b), [c]) == After(After(After(s, a), b), c);
  }

  lemma {:induction false} HistoryConcat(s: Store, events: seq<Event>, more: seq<Event>)
    ensures History(s, events + more) == History(History(s, events), more)
    decreases |events|
  {
    if events == [] {
      assert events + more == more;
    } else {
      assert (events + more)[1..] == events[1..] + more;
      HistoryConcat(After(s, events[0]), events[1..], more);
    }
  }
}
