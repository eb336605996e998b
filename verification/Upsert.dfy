/** The natural-key upsert `upsertByKey` in shared/src/mutators/garage-cluster-cache.ts as a
    protocol: any number of processes, interleaved at each read and each write of a collection
    with a unique index on the key. Rows are never deleted, so a row's position is its id. */
module Upsert {
  import opened Options
  import opened Sums

  datatype Row = Row(key: string, payload: string, fetchedAt: string)

  /** Where a process stands. `conflict` says that the unique index refused its create, as
      opposed to the create throwing for a reason of its own. */
  datatype Place = Finding | Creating | Rereading(conflict: bool) | Updating(row: nat) | Done | Failed(conflict: bool)

  datatype Process = Process(key: string, payload: string, fetchedAt: string, place: Place)

  /** A write that the collection carried out; `acknowledged` when its response arrived. */
  datatype Write = Write(process: nat, row: nat, acknowledged: bool)

  datatype System = System(rows: seq<Row>, processes: seq<Process>, writes: seq<Write>)

  /** `Throw` is a request that never reaches the collection, `Lose` one that is carried out but
      whose response is lost, so that it throws at the client all the same. */
  datatype Action = Start(key: string, payload: string, fetchedAt: string)
                  | Advance(process: nat) | Throw(process: nat) | Lose(process: nat)

  const EMPTY := System([], [], [])

  /** The key as the find filter spells it: without its double quotes. */
  function Quoted(key: string): string {
    if key == "" then ""
    else if key[0] == '"' then Quoted(key[1..])
    else [key[0]] + Quoted(key[1..])
  }

  /** Nothing else is dropped, and nothing moves. */
  lemma {:induction false} QuotedIsTheRest(key: string)
    ensures Quoted(key) == Filter(key, (ch: char) => ch != '"')
  {
    var keep := (ch: char) => ch != '"';
    if key != "" {
      QuotedIsTheRest(key[1..]);
      assert key == [key[0]] + key[1..];
      FilterConcat([key[0]], key[1..], keep);
      FilterSnoc([], key[0], keep);
      assert [] + [key[0]] == [key[0]];
    }
  }

  function FindKey(rows: seq<Row>, key: string): (r: Option<nat>)
    ensures r.Some? ==> r.value < |rows| && rows[r.value].key == key
    ensures r.None? ==> forall i :: 0 <= i < |rows| ==> rows[i].key != key
  {
    if rows == [] then None
    else
      var earlier := FindKey(rows[..|rows| - 1], key);
      if earlier.Some? then earlier else if rows[|rows| - 1].key == key then Some(|rows| - 1) else None
  }

  /** One request of process `p` to the collection. */
  function Proceed(s: System, p: nat): System
    requires p < |s.processes|
  {
    var process := s.processes[p];
    match process.place
    case Finding =>
      var found := FindKey(s.rows, Quoted(process.key));
      Moved(s, p, if found.Some? then Updating(found.value) else Creating)
    case Creating =>
      if FindKey(s.rows, process.key).Some? then Moved(s, p, Rereading(true))
      else
        Moved(s, p, Done).(rows := s.rows + [Row(process.key, process.payload, process.fetchedAt)],
                           writes := s.writes + [Write(p, |s.rows|, true)])
    case Rereading(conflict) =>
      var found := FindKey(s.rows, Quoted(process.key));
      Moved(s, p, if found.Some? then Updating(found.value) else Failed(conflict))
    case Updating(row) =>
      if row < |s.rows| then
        Moved(s, p, Done).(rows := s.rows[row := Row(s.rows[row].key, process.payload, process.fetchedAt)],
                           writes := s.writes + [Write(p, row, true)])
      else s
    case Done => s
    case Failed(conflict) => s
  }

  function Moved(s: System, p: nat, place: Place): System
    requires p < |s.processes|
  {
    s.(processes := s.processes[p := s.processes[p].(place := place)])
  }

  /** The request of process `p` throws: a thrown create is caught, anything else is not. */
  function Thrown(s: System, p: nat): System
    requires p < |s.processes|
  {
    match s.processes[p].place
    case Creating => Moved(s, p, Rereading(false))
    case Done => s
    case Failed(conflict) => s
    case _ => Moved(s, p, Failed(false))
  }

  /** The request of process `p` is carried out, and then throws at the process. */
  function Lost(s: System, p: nat): System
    requires p < |s.processes|
  {
    var process, t := s.processes[p], Thrown(s, p);
    match process.place
    case Creating =>
      if FindKey(s.rows, process.key).Some? then t
      else t.(rows := s.rows + [Row(process.key, process.payload, process.fetchedAt)],
              writes := s.writes + [Write(p, |s.rows|, false)])
    case Updating(row) =>
      if row < |s.rows| then
        t.(rows := s.rows[row := Row(s.rows[row].key, process.payload, process.fetchedAt)],
           writes := s.writes + [Write(p, row, false)])
      else t
    case _ => t
  }

  function Next(s: System, a: Action): System {
    match a
    case Start(key, payload, fetchedAt) => s.(processes := s.processes + [Process(key, payload, fetchedAt, Finding)])
    case Advance(p) => if p < |s.processes| then Proceed(s, p) else s
    case Throw(p) => if p < |s.processes| then Thrown(s, p) else s
    case Lose(p) => if p < |s.processes| then Lost(s, p) else s
  }

  function Run(s: System, schedule: seq<Action>): System {
    if schedule == [] then s else Next(Run(s, schedule[..|schedule| - 1]), schedule[|schedule| - 1])
  }

  // ---- the invariant --------------------------------------------------------------------

  predicate QuoteFree(key: string) {
    '"' !in key
  }

  lemma {:induction false} QuotedFacts(key: string)
    ensures QuoteFree(Quoted(key))
    ensures Quoted(key) == key <==> QuoteFree(key)
    ensures |Quoted(key)| <= |key|
  {
    if key != "" {
      QuotedFacts(key[1..]);
      assert key == [key[0]] + key[1..];
      if key[0] != '"' { assert Quoted(key)[1..] == Quoted(key[1..]); }
    }
  }

  /** The process of the last write to the row. */
  function LastWriter(writes: seq<Write>, row: nat): Option<nat> {
    if writes == [] then None
    else if writes[|writes| - 1].row == row then Some(writes[|writes| - 1].process)
    else LastWriter(writes[..|writes| - 1], row)
  }

  ghost predicate UniqueKeys(rows: seq<Row>) {
    forall i, j :: 0 <= i < j < |rows| ==> rows[i].key != rows[j].key
  }

  ghost predicate HoldsPairOf(row: Row, process: Process) {
    row.payload == process.payload && row.fetchedAt == process.fetchedAt
  }

  ghost predicate PlaceIsRight(s: System, p: nat)
    requires p < |s.processes|
  {
    var process := s.processes[p];
    match process.place
    case Updating(row) => row < |s.rows| && s.rows[row].key == Quoted(process.key)
    case Rereading(conflict) => conflict ==> FindKey(s.rows, process.key).Some?
    case Failed(conflict) => conflict ==> !QuoteFree(process.key)
    case _ => true
  }

  ghost predicate WriteIsRight(s: System, w: Write) {
    && w.process < |s.processes| && w.row < |s.rows|
    && (w.acknowledged ==> s.processes[w.process].place == Done)
    && s.rows[w.row].key in {s.processes[w.process].key, Quoted(s.processes[w.process].key)}
  }

  ghost predicate RowIsRight(s: System, row: nat)
    requires row < |s.rows|
  {
    var writer := LastWriter(s.writes, row);
    writer.Some? && writer.value < |s.processes| && HoldsPairOf(s.rows[row], s.processes[writer.value])
  }

  function WritesBy(writes: seq<Write>, p: nat): nat {
    if writes == [] then 0
    else WritesBy(writes[..|writes| - 1], p) + if writes[|writes| - 1].process == p then 1 else 0
  }

  /** How many writes a process can have behind it: a lost create and one more. */
  function Budget(place: Place): nat {
    match place
    case Finding => 0
    case Creating => 0
    case Rereading(_) => 1
    case Updating(_) => 1
    case Done => 2
    case Failed(_) => 2
  }

  /** A finished process has an acknowledged write, and no process writes after one. */
  ghost predicate WroteOnce(s: System) {
    && (forall i, j :: 0 <= i < j < |s.writes| && s.writes[i].process == s.writes[j].process ==>
          !s.writes[i].acknowledged)
    && (forall p :: 0 <= p < |s.processes| ==> WritesBy(s.writes, p) <= Budget(s.processes[p].place))
    && (forall p :: 0 <= p < |s.processes| && s.processes[p].place == Done ==> Acknowledged(s.writes, p))
  }

  ghost predicate Acknowledged(writes: seq<Write>, p: nat) {
    exists i :: 0 <= i < |writes| && writes[i].process == p && writes[i].acknowledged
  }

  ghost predicate Good(s: System) {
    && UniqueKeys(s.rows)
    && (forall p :: 0 <= p < |s.processes| ==> PlaceIsRight(s, p))
    && (forall i :: 0 <= i < |s.writes| ==> WriteIsRight(s, s.writes[i]))
    && (forall row :: 0 <= row < |s.rows| ==> RowIsRight(s, row))
    && WroteOnce(s)
  }

  /** Finding a key is finding any row with it. */
  lemma Found(rows: seq<Row>, key: string, i: nat)
    requires i < |rows| && rows[i].key == key
    ensures FindKey(rows, key).Some?
  { }

  /** A step that keeps every process in its place but `p`, which moves without writing. */
  lemma MoveKeeps(s: System, p: nat, place: Place)
    requires Good(s) && p < |s.processes| && s.processes[p].place != Done && place != Done
    requires Budget(s.processes[p].place) <= Budget(place)
    requires PlaceIsRight(Moved(s, p, place), p)
    ensures Good(Moved(s, p, place))
  {
    hide FindKey, Quoted;
    var t := Moved(s, p, place);
    forall q | 0 <= q < |t.processes| ensures PlaceIsRight(t, q) { assert PlaceIsRight(s, q); }
    forall i | 0 <= i < |t.writes| ensures WriteIsRight(t, t.writes[i]) { assert WriteIsRight(s, s.writes[i]); }
    forall row | 0 <= row < |t.rows| ensures RowIsRight(t, row) { assert RowIsRight(s, row); }
  }

  /** The system after process `p` wrote `row` and moved on. */
  function Wrote(s: System, p: nat, rows: seq<Row>, row: nat, place: Place): System
    requires p < |s.processes|
  {
    Moved(s, p, place).(rows := rows, writes := s.writes + [Write(p, row, place == Done)])
  }

  /** What every write to a row, new or old, must do to keep the rest as it was. */
  lemma WriteKeeps(s: System, p: nat, rows: seq<Row>, row: nat, place: Place)
    requires Good(s) && p < |s.processes| && s.processes[p].place != Done
    requires Budget(s.processes[p].place) < Budget(place) && PlaceIsRight(Wrote(s, p, rows, row, place), p)
    requires |s.rows| <= |rows| && row < |rows| && (|rows| == |s.rows| || row == |s.rows| == |rows| - 1)
    requires forall i :: 0 <= i < |s.rows| ==> rows[i].key == s.rows[i].key && (i != row ==> rows[i] == s.rows[i])
    requires UniqueKeys(rows) && HoldsPairOf(rows[row], s.processes[p])
    requires rows[row].key in {s.processes[p].key, Quoted(s.processes[p].key)}
    ensures Good(Wrote(s, p, rows, row, place))
  {
    hide FindKey, Quoted, WroteOnce, WritesBy;
    var t := Wrote(s, p, rows, row, place);
    forall q | 0 <= q < |t.processes| ensures PlaceIsRight(t, q) {
      if q != p { PlaceSurvives(s, t, q); }
    }
    forall i | 0 <= i < |t.writes| ensures WriteIsRight(t, t.writes[i]) {
      if i < |s.writes| { assert WriteIsRight(s, s.writes[i]); }
    }
    forall r | 0 <= r < |t.rows| ensures RowIsRight(t, r) {
      assert t.writes[..|t.writes| - 1] == s.writes;
      if r != row { assert RowIsRight(s, r); }
    }
    WritesStayOnce(s, p, rows, row, place);
  }

  lemma PlaceSurvives(s: System, t: System, q: nat)
    requires q < |s.processes| == |t.processes| && PlaceIsRight(s, q) && t.processes[q] == s.processes[q]
    requires |s.rows| <= |t.rows| && forall i :: 0 <= i < |s.rows| ==> t.rows[i].key == s.rows[i].key
    ensures PlaceIsRight(t, q)
  {
    hide Quoted;
    var key, found := s.processes[q].key, FindKey(s.rows, s.processes[q].key);
    if found.Some? { Found(t.rows, key, found.value); }
  }

  lemma WritesStayOnce(s: System, p: nat, rows: seq<Row>, row: nat, place: Place)
    requires Good(s) && p < |s.processes| && s.processes[p].place != Done
    requires Budget(s.processes[p].place) < Budget(place)
    ensures WroteOnce(Wrote(s, p, rows, row, place))
  {
    hide FindKey, Quoted, PlaceIsRight, RowIsRight, UniqueKeys;
    var t := Wrote(s, p, rows, row, place);
    assert t.writes[..|t.writes| - 1] == s.writes;
    forall i | 0 <= i < |s.writes| && s.writes[i].process == p ensures !s.writes[i].acknowledged {
      assert WriteIsRight(s, s.writes[i]);
    }
    forall q | 0 <= q < |t.processes| && t.processes[q].place == Done ensures Acknowledged(t.writes, q) {
      if q == p {
        assert t.writes[|s.writes|].process == p && t.writes[|s.writes|].acknowledged;
      } else {
        var i :| 0 <= i < |s.writes| && s.writes[i].process == q && s.writes[i].acknowledged;
        assert t.writes[i] == s.writes[i];
      }
    }
  }

  lemma {:induction false} NoWritesYet(writes: seq<Write>, p: nat)
    requires forall i :: 0 <= i < |writes| ==> writes[i].process != p
    ensures WritesBy(writes, p) == 0
  {
    if writes != [] { NoWritesYet(writes[..|writes| - 1], p); }
  }

  lemma StartKeeps(s: System, key: string, payload: string, fetchedAt: string)
    requires Good(s)
    ensures Good(Next(s, Start(key, payload, fetchedAt)))
  {
    hide FindKey, Quoted;
    var t := Next(s, Start(key, payload, fetchedAt));
    NoWritesYet(s.writes, |s.processes|);
    forall q | 0 <= q < |t.processes| ensures PlaceIsRight(t, q) { if q < |s.processes| { assert PlaceIsRight(s, q); } }
    forall i | 0 <= i < |t.writes| ensures WriteIsRight(t, t.writes[i]) { assert WriteIsRight(s, s.writes[i]); }
    forall row | 0 <= row < |t.rows| ensures RowIsRight(t, row) { assert RowIsRight(s, row); }
    assert WroteOnce(t);
  }

  lemma ProceedKeeps(s: System, p: nat)
    requires Good(s) && p < |s.processes|
    ensures Good(Proceed(s, p))
  {
    hide Good, UniqueKeys;
    var process := s.processes[p];
    GoodAt(s, p);
    QuotedFacts(process.key);
    match process.place
    case Finding =>
      var found := FindKey(s.rows, Quoted(process.key));
      MoveKeeps(s, p, if found.Some? then Updating(found.value) else Creating);
    case Creating =>
      if FindKey(s.rows, process.key).Some? {
        MoveKeeps(s, p, Rereading(true));
      } else {
        CreateKeepsUnique(s.rows, Row(process.key, process.payload, process.fetchedAt));
        WriteKeeps(s, p, s.rows + [Row(process.key, process.payload, process.fetchedAt)], |s.rows|, Done);
      }
    case Rereading(conflict) =>
      var found := FindKey(s.rows, Quoted(process.key));
      MoveKeeps(s, p, if found.Some? then Updating(found.value) else Failed(conflict));
    case Updating(row) =>
      UpdateKeepsUnique(s.rows, row, Row(s.rows[row].key, process.payload, process.fetchedAt));
      WriteKeeps(s, p, s.rows[row := Row(s.rows[row].key, process.payload, process.fetchedAt)], row, Done);
    case Done =>
    case Failed(conflict) =>
  }

  lemma GoodAt(s: System, p: nat)
    requires Good(s) && p < |s.processes|
    ensures PlaceIsRight(s, p) && UniqueKeys(s.rows)
  { }

  lemma CreateKeepsUnique(rows: seq<Row>, row: Row)
    requires UniqueKeys(rows) && FindKey(rows, row.key).None?
    ensures UniqueKeys(rows + [row])
  { }

  lemma UpdateKeepsUnique(rows: seq<Row>, i: nat, row: Row)
    requires UniqueKeys(rows) && i < |rows| && row.key == rows[i].key
    ensures UniqueKeys(rows[i := row])
  { }

  lemma ThrowKeeps(s: System, p: nat)
    requires Good(s) && p < |s.processes|
    ensures Good(Thrown(s, p))
  {
    hide Good;
    match s.processes[p].place
    case Creating => MoveKeeps(s, p, Rereading(false));
    case Done =>
    case Failed(conflict) =>
    case _ => MoveKeeps(s, p, Failed(false));
  }

  lemma LoseKeeps(s: System, p: nat)
    requires Good(s) && p < |s.processes|
    ensures Good(Lost(s, p))
  {
    hide Good, UniqueKeys;
    var process := s.processes[p];
    ThrowKeeps(s, p);
    GoodAt(s, p);
    QuotedFacts(process.key);
    match process.place
    case Creating =>
      if FindKey(s.rows, process.key).None? {
        CreateKeepsUnique(s.rows, Row(process.key, process.payload, process.fetchedAt));
        WriteKeeps(s, p, s.rows + [Row(process.key, process.payload, process.fetchedAt)], |s.rows|, Rereading(false));
      }
    case Updating(row) =>
      UpdateKeepsUnique(s.rows, row, Row(s.rows[row].key, process.payload, process.fetchedAt));
      WriteKeeps(s, p, s.rows[row := Row(s.rows[row].key, process.payload, process.fetchedAt)], row, Failed(false));
    case _ =>
  }

  lemma {:induction false} RunKeeps(s: System, schedule: seq<Action>)
    requires Good(s)
    ensures Good(Run(s, schedule))
  {
    hide Good, Proceed, Thrown, Lost;
    if schedule != [] {
      RunKeeps(s, schedule[..|schedule| - 1]);
      var before := Run(s, schedule[..|schedule| - 1]);
      match schedule[|schedule| - 1]
      case Start(key, payload, fetchedAt) => StartKeeps(before, key, payload, fetchedAt);
      case Advance(p) => if p < |before.processes| { ProceedKeeps(before, p); }
      case Throw(p) => if p < |before.processes| { ThrowKeeps(before, p); }
      case Lose(p) => if p < |before.processes| { LoseKeeps(before, p); }
    }
  }

  // ---- every schedule -------------------------------------------------------------------

  /** Never two rows with one key. */
  lemma {:induction false} OneRowPerKey(schedule: seq<Action>, i: nat, j: nat)
    ensures var rows := Run(EMPTY, schedule).rows;
      i < |rows| && j < |rows| && rows[i].key == rows[j].key ==> i == j
  {
    hide Run;
    RunKeeps(EMPTY, schedule);
  }

  /** The last write wins whole: each row holds the payload and the timestamp of one process,
      that of the last write to it, and the key of that process unless it has a double quote.
      The process has finished, or the response to that write was lost. */
  lemma LastWriteWins(schedule: seq<Action>, row: nat)
    requires row < |Run(EMPTY, schedule).rows|
    ensures
      var s := Run(EMPTY, schedule);
      exists i ::
        && 0 <= i < |s.writes| && s.writes[i].row == row && (forall j :: i < j < |s.writes| ==> s.writes[j].row != row)
        && s.writes[i].process < |s.processes|
        && HoldsPairOf(s.rows[row], s.processes[s.writes[i].process])
        && (s.writes[i].acknowledged ==> s.processes[s.writes[i].process].place == Done)
        && (QuoteFree(s.processes[s.writes[i].process].key) ==> s.processes[s.writes[i].process].key == s.rows[row].key)
  {
    hide Run, Quoted, FindKey;
    RunKeeps(EMPTY, schedule);
    var s := Run(EMPTY, schedule);
    assert RowIsRight(s, row);
    var i := LastWriterIsAWrite(s.writes, row);
    assert WriteIsRight(s, s.writes[i]);
    QuotedFacts(s.processes[s.writes[i].process].key);
  }

  lemma {:induction false} LastWriterIsAWrite(writes: seq<Write>, row: nat) returns (i: nat)
    requires LastWriter(writes, row).Some?
    ensures i < |writes| && writes[i].process == LastWriter(writes, row).value && writes[i].row == row
    ensures forall j :: i < j < |writes| ==> writes[j].row != row
  {
    if writes[|writes| - 1].row == row {
      i := |writes| - 1;
    } else {
      i := LastWriterIsAWrite(writes[..|writes| - 1], row);
    }
  }

  /** Exactly the finished processes have an acknowledged write, one each and nothing after it. A
      process writes at most twice, and twice only after a lost response. */
  lemma FinishedIffWroteOnce(schedule: seq<Action>, p: nat)
    requires p < |Run(EMPTY, schedule).processes|
    ensures
      var s := Run(EMPTY, schedule);
      && (s.processes[p].place == Done <==> Acknowledged(s.writes, p))
      && (forall i, j :: 0 <= i < j < |s.writes| && s.writes[i].process == s.writes[j].process == p ==>
            !s.writes[i].acknowledged)
      && WritesBy(s.writes, p) <= 2
      && ((forall a :: a in schedule ==> !a.Lose?) ==> forall i :: 0 <= i < |s.writes| ==> s.writes[i].acknowledged)
  {
    hide Run, Quoted, FindKey, WritesBy;
    RunKeeps(EMPTY, schedule);
    var s := Run(EMPTY, schedule);
    forall i | 0 <= i < |s.writes| && s.writes[i].acknowledged ensures s.processes[s.writes[i].process].place == Done {
      assert WriteIsRight(s, s.writes[i]);
    }
    assert WritesBy(s.writes, p) <= Budget(s.processes[p].place);
    if forall a :: a in schedule ==> !a.Lose? { NothingLost(schedule); }
  }

  lemma {:induction false} NothingLost(schedule: seq<Action>)
    requires forall a :: a in schedule ==> !a.Lose?
    ensures forall w :: w in Run(EMPTY, schedule).writes ==> w.acknowledged
  {
    hide FindKey, Quoted;
    if schedule != [] {
      assert schedule[|schedule| - 1] in schedule;
      NothingLost(schedule[..|schedule| - 1]);
    }
  }

  /** When process `p` finishes with a key free of double quotes, the one row of its key exists. */
  lemma FinishedHasItsRow(schedule: seq<Action>, p: nat)
    requires p < |Run(EMPTY, schedule).processes|
    ensures var s := Run(EMPTY, schedule);
      s.processes[p].place == Done && QuoteFree(s.processes[p].key) ==> FindKey(s.rows, s.processes[p].key).Some?
  {
    hide Run, Quoted, FindKey;
    RunKeeps(EMPTY, schedule);
    var s := Run(EMPTY, schedule);
    if s.processes[p].place == Done {
      assert Acknowledged(s.writes, p);
      var i :| 0 <= i < |s.writes| && s.writes[i].process == p && s.writes[i].acknowledged;
      assert WriteIsRight(s, s.writes[i]);
      QuotedFacts(s.processes[p].key);
      if QuoteFree(s.processes[p].key) { Found(s.rows, s.processes[p].key, s.writes[i].row); }
    }
  }

  // ---- progress -------------------------------------------------------------------------

  function StepsLeft(place: Place): nat {
    match place
    case Finding => 4
    case Creating => 3
    case Rereading(conflict) => 2
    case Updating(row) => 1
    case Done => 0
    case Failed(conflict) => 0
  }

  function Turns(schedule: seq<Action>, p: nat): nat {
    if schedule == [] then 0
    else Turns(schedule[..|schedule| - 1], p) + if schedule[|schedule| - 1] == Advance(p) then 1 else 0
  }

  /** No process waits for another: four turns of its own are enough, whatever runs in between. */
  lemma {:induction false} FourTurnsSuffice(s: System, schedule: seq<Action>, p: nat)
    requires Good(s) && p < |s.processes|
    ensures p < |Run(s, schedule).processes|
    ensures StepsLeft(Run(s, schedule).processes[p].place) + Turns(schedule, p) <= StepsLeft(s.processes[p].place)
            || StepsLeft(Run(s, schedule).processes[p].place) == 0
    ensures Turns(schedule, p) >= 4
        ==> Run(s, schedule).processes[p].place.Done? || Run(s, schedule).processes[p].place.Failed?
  {
    hide FindKey, Quoted;
    if schedule != [] {
      var rest := schedule[..|schedule| - 1];
      FourTurnsSuffice(s, rest, p);
      RunKeeps(s, rest);
      GoodAt(Run(s, rest), p);
      hide Good, Run;
      StepMoves(Run(s, rest), schedule[|schedule| - 1], p);
    }
  }

  lemma StepMoves(s: System, a: Action, p: nat)
    requires p < |s.processes| && PlaceIsRight(s, p)
    ensures p < |Next(s, a).processes|
    ensures var left := StepsLeft(Next(s, a).processes[p].place);
      left == 0 || left + (if a == Advance(p) then 1 else 0) <= StepsLeft(s.processes[p].place)
  {
    hide FindKey, Quoted;
  }

  // ---- exactly which keys are safe ------------------------------------------------------

  /** Some process with this key was failed by the unique index. */
  ghost predicate FailedByConflict(s: System, key: string) {
    exists p :: 0 <= p < |s.processes| && s.processes[p].key == key && s.processes[p].place == Failed(true)
  }

  /** Some process with this key wrote to the row of another key. */
  ghost predicate WroteElsewhere(s: System, key: string) {
    exists i :: 0 <= i < |s.writes| && s.writes[i].process < |s.processes| && s.writes[i].row < |s.rows|
      && s.processes[s.writes[i].process].key == key && s.rows[s.writes[i].row].key != key
  }

  lemma Then(s: System, schedule: seq<Action>, a: Action)
    ensures Run(s, schedule + [a]) == Next(Run(s, schedule), a)
  {
    assert (schedule + [a])[..|schedule|] == schedule;
  }

  function Alone(key: string, payload: string, fetchedAt: string, p: nat): seq<Action> {
    [Start(key, payload, fetchedAt), Advance(p), Advance(p), Advance(p), Advance(p)]
  }

  lemma {:induction false} RunConcat(s: System, first: seq<Action>, second: seq<Action>)
    ensures Run(s, first + second) == Run(Run(s, first), second)
  {
    if second == [] {
      assert first + second == first;
    } else {
      var rest := second[..|second| - 1];
      RunConcat(s, first, rest);
      assert first + second == (first + rest) + [second[|second| - 1]];
      Then(s, first + rest, second[|second| - 1]);
    }
  }

  /** The system with one more process, which wrote `row` and finished. */
  function Stored(s: System, key: string, payload: string, fetchedAt: string, rows: seq<Row>, row: nat): System {
    System(rows, s.processes + [Process(key, payload, fetchedAt, Done)], s.writes + [Write(|s.processes|, row, true)])
  }

  /** What the upsert does to the rows when nobody else runs: update the row that its filter
      finds, else create, else, when the index refuses and the filter still finds nothing, fail. */
  lemma AloneOutcome(s: System, key: string, payload: string, fetchedAt: string)
    ensures
      var t := Run(s, Alone(key, payload, fetchedAt, |s.processes|));
      match FindKey(s.rows, Quoted(key))
      case Some(row) =>
        t == Stored(s, key, payload, fetchedAt, s.rows[row := Row(s.rows[row].key, payload, fetchedAt)], row)
      case None =>
        if FindKey(s.rows, key).None?
        then t == Stored(s, key, payload, fetchedAt, s.rows + [Row(key, payload, fetchedAt)], |s.rows|)
        else t == System(s.rows, s.processes + [Process(key, payload, fetchedAt, Failed(true))], s.writes)
  {
    hide FindKey, Quoted, Run;
    var p, go := |s.processes|, Advance(|s.processes|);
    var s1 := Next(s, Start(key, payload, fetchedAt));
    var s2 := Next(s1, go);
    var s3 := Next(s2, go);
    var s4 := Next(s3, go);
    RunOfFive(s, Start(key, payload, fetchedAt), go);
  }

  lemma RunOfFive(s: System, a: Action, b: Action)
    ensures Run(s, [a, b, b, b, b]) == Next(Next(Next(Next(Next(s, a), b), b), b), b)
  {
    hide Next;
    assert Run(s, []) == s;
    Then(s, [], a);
    assert [] + [a] == [a];
    Then(s, [a], b);
    assert [a] + [b] == [a, b];
    Then(s, [a, b], b);
    assert [a, b] + [b] == [a, b, b];
    Then(s, [a, b, b], b);
    assert [a, b, b] + [b] == [a, b, b, b];
    Then(s, [a, b, b, b], b);
    assert [a, b, b, b] + [b] == [a, b, b, b, b];
  }

  /** Two processes one after the other, no race at all. */
  lemma TwoInTurn(first: string, second: string, payload: string, fetchedAt: string)
    requires Quoted(second) != second
    ensures var t := Run(EMPTY, Alone(first, payload, fetchedAt, 0) + Alone(second, payload, fetchedAt, 1));
      && (first == second ==> FailedByConflict(t, second))
      && (first == Quoted(second) ==> WroteElsewhere(t, second))
  {
    hide Quoted, Run, Alone;
    RunConcat(EMPTY, Alone(first, payload, fetchedAt, 0), Alone(second, payload, fetchedAt, 1));
    AloneOutcome(EMPTY, first, payload, fetchedAt);
    var s := System([Row(first, payload, fetchedAt)], [Process(first, payload, fetchedAt, Done)], [Write(0, 0, true)]);
    assert Run(EMPTY, Alone(first, payload, fetchedAt, 0)) == s;
    AloneOutcome(s, second, payload, fetchedAt);
    FirstRow(s.rows[0], first);
    FirstRow(s.rows[0], Quoted(second));
    var t := Run(s, Alone(second, payload, fetchedAt, 1));
    if first == second { assert t.processes[1] == Process(second, payload, fetchedAt, Failed(true)); }
    if first == Quoted(second) { assert t.writes[1] == Write(1, 0, true); }
  }

  lemma FirstRow(row: Row, key: string)
    ensures FindKey([row], key) == if row.key == key then Some(0) else None
  {
    assert [row][..0] == [];
  }

  /** No schedule makes the unique index fail an upsert of the key, exactly when the key has no
      double quote: the filter drops the quotes, so it never finds a row that has them, and
      every upsert after the first then fails even when it runs alone. */
  lemma ConflictsAreAbsorbedIff(key: string)
    ensures (forall schedule :: !FailedByConflict(Run(EMPTY, schedule), key)) <==> QuoteFree(key)
  {
    hide Run, Quoted;
    QuotedFacts(key);
    if QuoteFree(key) {
      forall schedule ensures !FailedByConflict(Run(EMPTY, schedule), key) {
        var s := Run(EMPTY, schedule);
        RunKeeps(EMPTY, schedule);
        forall p | 0 <= p < |s.processes| && s.processes[p].key == key ensures s.processes[p].place != Failed(true) {
          GoodAt(s, p);
        }
      }
    } else {
      TwoInTurn(key, key, "", "");
    }
  }

  /** Every write of the key's processes goes to the key's own row in every schedule, exactly
      when the key has no double quote: otherwise the filter finds the row of the bare key. */
  lemma OwnRowIff(key: string)
    ensures (forall schedule :: !WroteElsewhere(Run(EMPTY, schedule), key)) <==> QuoteFree(key)
  {
    hide Run, Quoted;
    QuotedFacts(key);
    if QuoteFree(key) {
      forall schedule ensures !WroteElsewhere(Run(EMPTY, schedule), key) {
        var s := Run(EMPTY, schedule);
        RunKeeps(EMPTY, schedule);
        forall i | 0 <= i < |s.writes| ensures WriteIsRight(s, s.writes[i]) { }
      }
    } else {
      TwoInTurn(Quoted(key), key, "", "");
    }
  }

  // ---- the calls as written -------------------------------------------------------------

  /** What the others do between two requests of process `p`: anything but moving `p`. */
  ghost predicate OfOthers(gap: seq<Action>, p: nat) {
    forall i :: 0 <= i < |gap| ==> gap[i] !in {Advance(p), Throw(p), Lose(p)}
  }

  /** What becomes of a request of process `p` itself. */
  datatype Fate = Works | Throws | Loses

  function Act(p: nat, fate: Fate): Action {
    match fate
    case Works => Advance(p)
    case Throws => Throw(p)
    case Loses => Lose(p)
  }

  /** The others' doings before a request, and its fate. */
  type Turn = (seq<Action>, Fate)

  /** The upsert of process `p`, turn by turn. */
  function Woven(start: Action, p: nat, turns: seq<Turn>): seq<Action> {
    if turns == [] then [start]
    else Woven(start, p, turns[..|turns| - 1]) + turns[|turns| - 1].0 + [Act(p, turns[|turns| - 1].1)]
  }

  lemma {:induction false} OthersLeaveInPlace(s: System, gap: seq<Action>, p: nat)
    requires Good(s) && p < |s.processes| && OfOthers(gap, p)
    ensures var t := Run(s, gap);
      && p < |t.processes| && t.processes[p] == s.processes[p]
      && Good(t) && PlaceIsRight(t, p)
    decreases gap, 1
  {
    hide Good, Next, PlaceIsRight, OfOthers;
    RunKeeps(s, gap);
    if gap != [] { LeftOnce(s, gap, p); }
    GoodAt(Run(s, gap), p);
  }

  lemma {:induction false} LeftOnce(s: System, gap: seq<Action>, p: nat)
    requires Good(s) && p < |s.processes| && OfOthers(gap, p) && gap != []
    ensures p < |Run(s, gap).processes| && Run(s, gap).processes[p] == s.processes[p]
    decreases gap, 0
  {
    hide Good, Next, PlaceIsRight;
    var rest := gap[..|gap| - 1];
    OthersLeaveInPlace(s, rest, p);
    OneLeaves(Run(s, rest), gap[|gap| - 1], p);
  }

  lemma OneLeaves(s: System, a: Action, p: nat)
    requires p < |s.processes| && a !in {Advance(p), Throw(p), Lose(p)}
    ensures p < |Next(s, a).processes| && Next(s, a).processes[p] == s.processes[p]
  {
    hide FindKey, Quoted;
  }

  lemma WeaveOne(s: System, start: Action, p: nat, turns: seq<Turn>, k: nat)
    requires k < |turns|
    ensures Run(s, Woven(start, p, turns[..k + 1]))
         == Next(Run(Run(s, Woven(start, p, turns[..k])), turns[k].0), Act(p, turns[k].1))
  {
    var before := Woven(start, p, turns[..k]);
    assert turns[..k + 1][..k] == turns[..k];
    Then(s, before + turns[k].0, Act(p, turns[k].1));
    RunConcat(s, before, turns[k].0);
  }

  lemma NextKeeps(s: System, a: Action)
    requires Good(s)
    ensures Good(Next(s, a))
  {
    RunKeeps(s, [a]);
    assert [a][..0] == [];
    assert Run(s, []) == s;
  }

  /** The collection as its clients share it, with the book of who is where. */
  class Collection {
    var rows: seq<Row>
    var processes: seq<Process>
    var writes: seq<Write>

    constructor ()
      ensures State() == EMPTY
    {
      rows, processes, writes := [], [], [];
    }

    function State(): System
      reads this
    {
      System(rows, processes, writes)
    }

    method Others(gap: seq<Action>)
      modifies this
      ensures State() == Run(old(State()), gap)
    {
      var after := Run(State(), gap);
      rows, processes, writes := after.rows, after.processes, after.writes;
    }

    method Arrive(p: nat, place: Place)
      requires p < |processes|
      modifies this`processes
      ensures processes == old(processes)[p := old(processes)[p].(place := place)]
    {
      processes := processes[p := processes[p].(place := place)];
    }

    method FindByKey(key: string) returns (found: Option<nat>)
      ensures found == FindKey(rows, Quoted(key))
    {
      hide Quoted;
      found := None;
      for i := 0 to |rows|
        invariant found == FindKey(rows[..i], Quoted(key))
      {
        assert rows[..i + 1][..i] == rows[..i];
        if found.None? && rows[i].key == Quoted(key) { found := Some(i); }
      }
      assert rows[..|rows|] == rows;
    }

    /** Process `p` looks its key up, to start with or again after a create that threw. */
    method Query(p: nat, fate: Fate) returns (found: Option<nat>)
      requires p < |processes| && (processes[p].place.Finding? || processes[p].place.Rereading?)
      modifies this`processes
      ensures State() == Next(old(State()), Act(p, fate)) && |processes| == |old(processes)|
      ensures fate != Works ==> processes[p].place == Failed(false)
      ensures fate == Works && found.Some? ==> processes[p].place == Updating(found.value)
      ensures fate == Works && found.None? ==>
        processes[p].place
        == if old(processes)[p].place.Finding? then Creating else Failed(old(processes)[p].place.conflict)
    {
      hide Quoted, FindKey;
      found := FindByKey(processes[p].key);
      if fate != Works {
        Arrive(p, Failed(false));
      } else if found.Some? {
        Arrive(p, Updating(found.value));
      } else {
        Arrive(p, match processes[p].place case Rereading(conflict) => Failed(conflict) case _ => Creating);
      }
    }

    /** Process `p` creates its row; the unique index refuses when the key is taken. */
    method Create(p: nat, fate: Fate) returns (created: bool)
      requires p < |processes| && processes[p].place == Creating
      modifies this
      ensures State() == Next(old(State()), Act(p, fate)) && |processes| == |old(processes)|
      ensures processes[p].place == if created then Done else Rereading(fate == Works)
      ensures created == (fate == Works && forall row :: row in old(rows) ==> row.key != old(processes)[p].key)
      ensures
        var own := Row(old(processes)[p].key, old(processes)[p].payload, old(processes)[p].fetchedAt);
        rows == if fate != Throws && forall row :: row in old(rows) ==> row.key != own.key then old(rows) + [own]
                else old(rows)
    {
      hide Quoted, FindKey;
      var process, heard := processes[p], fate == Works;
      var free := FindKey(rows, process.key).None?;
      if fate != Throws && free {
        writes := writes + [Write(p, |rows|, heard)];
        rows := rows + [Row(process.key, process.payload, process.fetchedAt)];
      }
      created := heard && free;
      Arrive(p, if created then Done else Rereading(heard));
    }

    /** Process `p` updates the row it found. */
    method Update(p: nat, fate: Fate) returns (updated: bool)
      requires p < |processes| && processes[p].place.Updating? && processes[p].place.row < |rows|
      modifies this
      ensures State() == Next(old(State()), Act(p, fate)) && |processes| == |old(processes)|
      ensures processes[p].place == if updated then Done else Failed(false)
      ensures updated == (fate == Works)
      ensures
        var row := old(processes)[p].place.row;
        rows == if fate == Throws then old(rows)
                else old(rows)[row := Row(old(rows)[row].key, old(processes)[p].payload, old(processes)[p].fetchedAt)]
    {
      var process, row := processes[p], processes[p].place.row;
      updated := fate == Works;
      if fate != Throws {
        rows := rows[row := Row(rows[row].key, process.payload, process.fetchedAt)];
        writes := writes + [Write(p, row, updated)];
      }
      Arrive(p, if updated then Done else Failed(false));
    }

    /** The others run before request number `k` of process `p`, which stays where it was. */
    method Await(ghost was: System, ghost start: Action, p: nat, turns: seq<Turn>, k: nat)
      requires k < |turns| && OfOthers(turns[k].0, p)
      requires Good(State()) && p < |processes| && State() == Run(was, Woven(start, p, turns[..k]))
      modifies this
      ensures p < |processes| && processes[p] == old(processes)[p] && PlaceIsRight(State(), p)
      ensures Next(State(), Act(p, turns[k].1)) == Run(was, Woven(start, p, turns[..k + 1]))
      ensures Good(Next(State(), Act(p, turns[k].1)))
    {
      hide Run, FindKey, Quoted, Woven, Good, OfOthers, Next, PlaceIsRight;
      OthersLeaveInPlace(State(), turns[k].0, p);
      Others(turns[k].0);
      WeaveOne(was, start, p, turns, k);
      NextKeeps(State(), Act(p, turns[k].1));
    }

    /** The call, with other processes doing anything at all before each of its requests, and any
        of its own requests throwing. It ends where the protocol does, after at most four
        requests, stored or failed. */
    method UpsertByKey(key: string, payload: string, fetchedAt: string, turns: seq<Turn>)
      returns (stored: bool, taken: nat)
      requires Good(State())
      requires |turns| == 4 && forall i :: 0 <= i < 4 ==> OfOthers(turns[i].0, |processes|)
      modifies this
      ensures 1 <= taken <= 4
      ensures State() == Run(old(State()), Woven(Start(key, payload, fetchedAt), |old(processes)|, turns[..taken]))
      ensures Good(State()) && |old(processes)| < |processes|
      ensures processes[|old(processes)|].place.Done? == stored
      ensures !stored ==> processes[|old(processes)|].place.Failed?
      ensures stored ==> turns[taken - 1].1 == Works
      ensures turns[0].1 != Works ==> taken == 1
      ensures taken == 1 ==> turns[0].1 != Works
      ensures !stored ==> turns[taken - 1].1 != Works || taken == 3
    {
      hide Run, Woven, Good, OfOthers, PlaceIsRight, Next;
      var p := |processes|;
      ghost var was, start := State(), Start(key, payload, fetchedAt);
      Begun(was, start);
      NextKeeps(was, start);
      Begin(key, payload, fetchedAt);
      Await(was, start, p, turns, 0);
      var existing := Query(p, turns[0].1);
      taken := 1;
      if processes[p].place.Creating? {
        Await(was, start, p, turns, 1);
        var created := Create(p, turns[1].1);
        if created {
          return true, 2;
        }
        Await(was, start, p, turns, 2);
        existing := Query(p, turns[2].1);
        taken := 3;
      }
      if processes[p].place.Failed? {
        return false, taken;
      }
      Await(was, start, p, turns, taken);
      RowIsThere(State(), p);
      stored := Update(p, turns[taken].1);
      taken := taken + 1;
    }

    method Begin(key: string, payload: string, fetchedAt: string)
      modifies this`processes
      ensures State() == Next(old(State()), Start(key, payload, fetchedAt))
      ensures processes == old(processes) + [Process(key, payload, fetchedAt, Finding)]
    {
      processes := processes + [Process(key, payload, fetchedAt, Finding)];
    }
  }

  lemma RowIsThere(s: System, p: nat)
    requires p < |s.processes| && PlaceIsRight(s, p) && s.processes[p].place.Updating?
    ensures s.processes[p].place.row < |s.rows|
  { }

  lemma Begun(s: System, start: Action)
    ensures forall p, turns: seq<Turn> :: Run(s, Woven(start, p, turns[..0])) == Next(s, start)
  {
    assert [start][..0] == [];
    assert Run(s, []) == s;
    assert Run(s, [start]) == Next(s, start);
  }
}
