/** The account-level halt, persisted in two stores; every ambiguity resolves to armed. */
module KillSwitch {
  import opened Common
  import Audit = AuditLog

  datatype SwitchState = Armed | Disarmed

  datatype Trigger =
    | Manual
    | DailyLossLimit
    | MaxAccountDrawdown
    | ReconciliationFailure
    | DataStaleness
    | ApiErrorRate
    | StateDisagreement
    | StateUnreadable

  datatype Record = Record(state: SwitchState, trigger: Option<Trigger>, reason: string, actor: string)

  /** The bounds a record is validated against when it is built; building an invalid one raises. */
  predicate Recordable(reason: string, actor: string) {
    1 <= |reason| <= 500 && 1 <= |actor| <= 100
  }

  predicate IsSpace(c: char) {
    c in " \t\n\r"
  }

  /** Whether anything is left of a reason once it is stripped. */
  predicate HasText(reason: string) {
    exists i :: 0 <= i < |reason| && !IsSpace(reason[i])
  }

  const SYSTEM_ACTOR: string := "system"

  function Resolved(trigger: Trigger, reason: string): Record {
    Record(Armed, Some(trigger), reason, SYSTEM_ACTOR)
  }

  /** The effective state of two stores, either of which may be absent, unreadable or corrupt. */
  function Effective(file: Option<Record>, db: Option<Record>): Record {
    if file.None? && db.None? then Resolved(StateUnreadable, "both stores")
    else if file.None? then Resolved(StateDisagreement, "file")
    else if db.None? then Resolved(StateDisagreement, "database")
    else if file.value.state != db.value.state then Resolved(StateDisagreement, "disagree")
    else db.value
  }

  /** Only two readable stores that both say so release the account to trade. While the two agree the database's
      record stands; otherwise the system arms, and names which of the two troubles it is. */
  lemma DisarmedOnlyWhenBothSaySo(file: Option<Record>, db: Option<Record>)
    ensures Effective(file, db).state == Disarmed
            <==> file.Some? && db.Some? && file.value.state == Disarmed && db.value.state == Disarmed
    ensures var r, agreed := Effective(file, db), file.Some? && db.Some? && file.value.state == db.value.state;
      && (agreed ==> r == db.value)
      && (!agreed ==> && r.state == Armed && r.actor == "system"
                      && r.trigger == Some(if file.None? && db.None? then StateUnreadable else StateDisagreement))
  {
  }

  datatype Refusal = InvalidRecord | NotConfirmed | NoReason

  /** The record a disarm would write, or why it is refused. */
  function DisarmRecord(reason: string, actor: string, humanConfirmed: bool): Result<Record, Refusal> {
    if !humanConfirmed then Failure(NotConfirmed)
    else if !HasText(reason) then Failure(NoReason)
    else if !Recordable(reason, actor) then Failure(InvalidRecord)
    else Success(Record(Disarmed, None, reason, actor))
  }

  function ArmRecord(trigger: Trigger, reason: string, actor: string): Result<Record, Refusal> {
    if Recordable(reason, actor) then Success(Record(Armed, Some(trigger), reason, actor)) else Failure(InvalidRecord)
  }

  function InitialRecord(actor: string): Result<Record, Refusal> {
    if Recordable("initialised", actor) then Success(Record(Disarmed, None, "initialised", actor))
    else Failure(InvalidRecord)
  }

  // ---------------------------------------------------------------- the two stores, step by step

  /** Who moved the committed state last. */
  datatype Commit = NeverCommitted | ByArm | ByConfirmedDisarm | ByInitialise

  /** What the two stores hold, whether each can be read at present, the record whose file half is still to be
      written, and the last commit. */
  datatype Stores = Stores(
    db: Option<Record>,
    file: Option<Record>,
    dbReadable: bool,
    fileReadable: bool,
    pending: Option<Record>,
    last: Commit)

  const ABSENT: Stores := Stores(None, None, true, true, None, NeverCommitted)

  function ReadDb(s: Stores): Option<Record> {
    if s.dbReadable then s.db else None
  }

  function ReadFile(s: Stores): Option<Record> {
    if s.fileReadable then s.file else None
  }

  function EffectiveOf(s: Stores): Record {
    Effective(ReadFile(s), ReadDb(s))
  }

  datatype Event =
    | ArmCommits(trigger: Trigger, reason: string, actor: string)
    | DisarmCommits(reason: string, actor: string, humanConfirmed: bool)
    | InitialiseCommits(actor: string)
    | FileFollows
    | Crash
    | DatabaseLost
    | FileLost
    | DatabaseReadable(now: bool)
    | FileReadable(now: bool)

  /** One step of a process that performs one operation at a time: the database commit and the file write are
      separate steps, and a crash between them drops the second. Either store may be lost, or unreadable for a
      while and then readable again as it was. Steps that are not enabled change nothing. */
  function Step(s: Stores, e: Event): Stores {
    match e
    case ArmCommits(trigger, reason, actor) =>
      var r := ArmRecord(trigger, reason, actor);
      if s.pending.Some? || r.Failure? then s else s.(db := Some(r.value), pending := Some(r.value), last := ByArm)
    case DisarmCommits(reason, actor, humanConfirmed) =>
      var r := DisarmRecord(reason, actor, humanConfirmed);
      if s.pending.Some? || r.Failure? then s
      else s.(db := Some(r.value), pending := Some(r.value), last := ByConfirmedDisarm)
    case InitialiseCommits(actor) =>
      var r := InitialRecord(actor);
      if s.pending.Some? || ReadDb(s).Some? || ReadFile(s).Some? || r.Failure? then s
      else s.(db := Some(r.value), pending := Some(r.value), last := ByInitialise)
    case FileFollows => if s.pending.None? then s else s.(file := s.pending, pending := None)
    case Crash => s.(pending := None)
    case DatabaseLost => s.(db := None)
    case FileLost => s.(file := None)
    case DatabaseReadable(now) => s.(dbReadable := now)
    case FileReadable(now) => s.(fileReadable := now)
  }

  function Run(s: Stores, events: seq<Event>): Stores {
    if events == [] then s else Step(Run(s, events[..|events| - 1]), events[|events| - 1])
  }

  /** One operation that is not interrupted: its commit, then its file write. */
  function Performed(s: Stores, commit: Event): Stores {
    Run(s, [commit, FileFollows])
  }

  lemma PerformedIsTwoSteps(s: Stores, commit: Event)
    ensures Performed(s, commit) == Step(Step(s, commit), FileFollows)
  {
    var events := [commit, FileFollows];
    assert events[..1] == [commit] && events[..1][..0] == [];
    assert Run(s, events[..1]) == Step(s, commit);
  }

  // ---------------------------------------------------------------- the switch

  class KillSwitch<J> {
    var db: Option<Record>
    var file: Option<Record>
    var dbReadable: bool
    var fileReadable: bool
    ghost var last: Commit
    const audit: Audit.AuditLog<J>
    const note: Record -> J

    constructor (db: Option<Record>, file: Option<Record>, ghost last: Commit, audit: Audit.AuditLog<J>,
                 note: Record -> J)
      ensures Contents() == Stores(db, file, true, true, None, last)
      ensures this.audit == audit && this.note == note
    {
      this.db, this.file, this.dbReadable, this.fileReadable := db, file, true, true;
      this.last, this.audit, this.note := last, audit, note;
    }

    /** The stores between two operations. */
    ghost function Contents(): Stores
      reads this
    {
      Stores(db, file, dbReadable, fileReadable, None, last)
    }

    function State(): Record
      reads this
    {
      Effective(if fileReadable then file else None, if dbReadable then db else None)
    }

    predicate IsArmed()
      reads this
    {
      State().state == Armed
    }

    /** The database write is the commit point; the file follows. */
    method WriteBoth(record: Record, ghost commit: Commit)
      modifies this
      ensures Contents() == old(Contents()).(db := Some(record), file := Some(record), last := commit)
    {
      db := Some(record);
      file := Some(record);
      last := commit;
    }

    method Log(eventType: Audit.EventType, record: Record, at: string)
      modifies audit
      ensures audit.rows == old(audit.rows)
                + [Audit.NewRow(audit.scheme, old(audit.rows), eventType, note(record), record.actor, at)]
    {
      var row := audit.Append(eventType, note(record), record.actor, at);
    }

    /** Releases the account to trade once, and only if neither store can be read to hold state. */
    method Initialise(actor: string, at: string) returns (r: Result<Record, Refusal>)
      modifies this, audit
      ensures Contents() == Performed(old(Contents()), InitialiseCommits(actor))
      ensures var blank := ReadDb(old(Contents())).None? && ReadFile(old(Contents())).None?;
        && r == (if blank then InitialRecord(actor) else Success(old(State())))
        && (blank ==> r == if 1 <= |actor| <= 100 then Success(Record(Disarmed, None, "initialised", actor))
                           else Failure(InvalidRecord))
        && (blank && r.Success? ==> db == file == Some(r.value) && |audit.rows| == |old(audit.rows)| + 1)
        && (!blank || r.Failure? ==> Contents() == old(Contents()) && audit.rows == old(audit.rows))
    {
      PerformedIsTwoSteps(Contents(), InitialiseCommits(actor));
      if (fileReadable && file.Some?) || (dbReadable && db.Some?) {
        return Success(State());
      }
      r := InitialRecord(actor);
      if r.Success? {
        WriteBoth(r.value, ByInitialise);
        Log(Audit.KillSwitchDisarmed, r.value, at);
      }
    }

    /** Arms from any state, whoever asks, provided the record it must write can be built. */
    method Arm(trigger: Trigger, reason: string, actor: string, at: string) returns (r: Result<Record, Refusal>)
      modifies this, audit
      ensures Contents() == Performed(old(Contents()), ArmCommits(trigger, reason, actor))
      ensures r == ArmRecord(trigger, reason, actor)
      ensures r == if 1 <= |reason| <= 500 && 1 <= |actor| <= 100 then
                     Success(Record(Armed, Some(trigger), reason, actor))
                   else Failure(InvalidRecord)
      ensures r.Success? ==> db == file == Some(r.value) && IsArmed() && |audit.rows| == |old(audit.rows)| + 1
      ensures r.Failure? ==> Contents() == old(Contents()) && State() == old(State()) && audit.rows == old(audit.rows)
    {
      PerformedIsTwoSteps(Contents(), ArmCommits(trigger, reason, actor));
      r := ArmRecord(trigger, reason, actor);
      if r.Success? {
        WriteBoth(r.value, ByArm);
        Log(Audit.KillSwitchArmed, r.value, at);
      }
    }

    /** Releases on a human's confirmed request; an unreadable store still reads as armed. */
    method Disarm(reason: string, actor: string, humanConfirmed: bool, at: string) returns (r: Result<Record, Refusal>)
      modifies this, audit
      ensures Contents() == Performed(old(Contents()), DisarmCommits(reason, actor, humanConfirmed))
      ensures r == DisarmRecord(reason, actor, humanConfirmed)
      ensures r.Success? <==> && humanConfirmed && |reason| <= 500 && 1 <= |actor| <= 100
                              && exists i :: 0 <= i < |reason| && reason[i] !in {' ', '\t', '\n', '\r'}
      ensures r.Success? ==> r.value == Record(Disarmed, None, reason, actor)
      ensures r.Success? ==>
                && humanConfirmed && db == file == Some(r.value) && |audit.rows| == |old(audit.rows)| + 1
                && (!IsArmed() <==> dbReadable && fileReadable)
      ensures r.Failure? ==> Contents() == old(Contents()) && audit.rows == old(audit.rows)
    {
      PerformedIsTwoSteps(Contents(), DisarmCommits(reason, actor, humanConfirmed));
      r := DisarmRecord(reason, actor, humanConfirmed);
      assert forall c: char :: IsSpace(c) <==> c in {' ', '\t', '\n', '\r'};
      if r.Success? {
        WriteBoth(r.value, ByConfirmedDisarm);
        Log(Audit.KillSwitchDisarmed, r.value, at);
      }
    }

    /** The gate before every order that opens or increases exposure. */
    method CheckCanEnter() returns (allowed: bool)
      ensures allowed <==> EffectiveOf(Contents()).state == Disarmed
      ensures allowed <==> && fileReadable && dbReadable
                           && file.Some? && db.Some? && file.value.state == Disarmed && db.value.state == Disarmed
    {
      allowed := State().state == Disarmed;
    }
  }

  // ---------------------------------------------------------------- runs with crashes and lost stores

  /** The database holds what the last commit wrote, unless it was lost, and an outstanding file write is that
      record. */
  predicate Consistent(s: Stores) {
    && (s.db.Some? ==> s.last != NeverCommitted && (s.db.value.state == Armed <==> s.last == ByArm))
    && (s.pending.Some? ==> s.last != NeverCommitted && (s.pending.value.state == Armed <==> s.last == ByArm))
    && (s.last == NeverCommitted ==> s.file.None?)
  }

  lemma {:induction false} RunConsistent(s: Stores, events: seq<Event>)
    requires Consistent(s)
    ensures Consistent(Run(s, events))
  {
    hide Step, Consistent;
    if events != [] {
      RunConsistent(s, events[..|events| - 1]);
      StepConsistent(Run(s, events[..|events| - 1]), events[|events| - 1]);
    }
  }

  lemma StepConsistent(s: Stores, e: Event)
    requires Consistent(s)
    ensures Consistent(Step(s, e))
  {
    hide Recordable, HasText;
  }

  /** Over every run from a system never initialised: trading is released only while both stores can be read and
      say so, and then the last committed operation was a disarm a human confirmed or the initialisation of a
      system with no readable state. */
  lemma ReleasedOnlyDeliberately(events: seq<Event>)
    ensures var s := Run(ABSENT, events);
      EffectiveOf(s).state == Disarmed ==>
        && s.dbReadable && s.fileReadable
        && s.db.Some? && s.file.Some? && s.db.value.state == Disarmed && s.file.value.state == Disarmed
        && (s.last == ByConfirmedDisarm || s.last == ByInitialise)
  {
    RunConsistent(ABSENT, events);
  }

  /** The commits that release the account: a disarm that is accepted, and an initialisation that can read
      neither store. */
  predicate Releases(s: Stores, e: Event) {
    match e
    case DisarmCommits(reason, actor, humanConfirmed) => DisarmRecord(reason, actor, humanConfirmed).Success?
    case InitialiseCommits(actor) => ReadDb(s).None? && ReadFile(s).None? && InitialRecord(actor).Success?
    case _ => false
  }

  /** None of the events releases the account when it happens. */
  predicate NoneReleases(s: Stores, events: seq<Event>) {
    forall i :: 0 <= i < |events| ==> !Releases(Run(s, events[..i]), events[i])
  }

  /** The last commit was an arm, and nothing that holds or awaits a record says otherwise. */
  predicate HeldByArm(s: Stores) {
    && s.last == ByArm
    && (s.db.Some? ==> s.db.value.state == Armed)
    && (s.pending.Some? ==> s.pending.value.state == Armed)
  }

  lemma {:induction false} RunHeldByArm(s: Stores, events: seq<Event>)
    requires HeldByArm(s) && NoneReleases(s, events)
    ensures HeldByArm(Run(s, events))
  {
    hide Step, Releases, HeldByArm;
    if events != [] {
      var n := |events| - 1;
      assert forall i :: 0 <= i < n ==> events[..n][i] == events[i] && events[..n][..i] == events[..i];
      RunHeldByArm(s, events[..n]);
      StepHeldByArm(Run(s, events[..n]), events[n]);
    }
  }

  lemma StepHeldByArm(s: Stores, e: Event)
    requires HeldByArm(s) && !Releases(s, e)
    ensures HeldByArm(Step(s, e))
  {
  }

  /** An arm takes effect at its database commit, and no crash, lost or unreadable store, refused disarm or
      further arm undoes it: the account stays halted until a commit that releases it. */
  lemma {:induction false} ArmHoldsUntilReleased(s: Stores, trigger: Trigger, reason: string, actor: string,
                                                 events: seq<Event>)
    requires s.pending.None? && Recordable(reason, actor)
    requires NoneReleases(Step(s, ArmCommits(trigger, reason, actor)), events)
    ensures var end := Run(Step(s, ArmCommits(trigger, reason, actor)), events);
      HeldByArm(end) && EffectiveOf(end).state == Armed
  {
    RunHeldByArm(Step(s, ArmCommits(trigger, reason, actor)), events);
  }

  /** Events that cannot release the account while the database can be read: anything but a disarm that would be
      accepted, and but losing the database or access to it. */
  predicate CannotRelease(e: Event) {
    match e
    case DisarmCommits(reason, actor, humanConfirmed) => DisarmRecord(reason, actor, humanConfirmed).Failure?
    case DatabaseLost => false
    case DatabaseReadable(now) => now
    case _ => true
  }

  /** While the database can be read, not even an initialisation undoes an arm. */
  lemma {:induction false} ArmSticks(s: Stores, trigger: Trigger, reason: string, actor: string, events: seq<Event>)
    requires s.pending.None? && s.dbReadable && Recordable(reason, actor)
    requires forall i :: 0 <= i < |events| ==> CannotRelease(events[i])
    ensures var end := Run(Step(s, ArmCommits(trigger, reason, actor)), events);
      && end.dbReadable && end.db.Some? && end.db.value.state == Armed && end.last == ByArm
      && EffectiveOf(end).state == Armed
      && (end.pending.Some? ==> end.pending.value.state == Armed)
  {
    if events != [] {
      ArmSticks(s, trigger, reason, actor, events[..|events| - 1]);
    }
  }

  /** Even losing the database after an arm leaves the account halted, until something releases it on purpose. */
  lemma ArmSurvivesLostDatabase(s: Stores, trigger: Trigger, reason: string, actor: string)
    requires s.pending.None? && Recordable(reason, actor)
    ensures var end := Run(Step(s, ArmCommits(trigger, reason, actor)), [DatabaseLost]);
      EffectiveOf(end).state == Armed
  {
    assert [DatabaseLost][..0] == [];
  }

  function BothReadable(s: Stores): Stores {
    s.(dbReadable := true, fileReadable := true)
  }

  /** A halted account is released by an initialisation exactly when neither store could be read at that moment:
      an armed state that is only out of reach is overwritten. */
  lemma InitialiseReleasesIff(s: Stores, actor: string)
    requires s.pending.None? && EffectiveOf(BothReadable(s)).state == Armed && InitialRecord(actor).Success?
    ensures EffectiveOf(BothReadable(Performed(s, InitialiseCommits(actor)))).state == Disarmed
            <==> ReadDb(s).None? && ReadFile(s).None?
  {
    PerformedIsTwoSteps(s, InitialiseCommits(actor));
  }

  /** An arm is refused exactly when its record cannot be built; then nothing changes and a released account
      stays released. */
  lemma ArmTakesEffectIff(s: Stores, trigger: Trigger, reason: string, actor: string)
    requires s.pending.None? && EffectiveOf(s).state == Disarmed
    ensures var after := Step(s, ArmCommits(trigger, reason, actor));
      EffectiveOf(after).state == Armed <==> 1 <= |reason| <= 500 && 1 <= |actor| <= 100
  {
  }
}
