/** The process pool of lifecycle attention records. */
module AttentionPool {
  import opened Common

  const CAPACITY: nat := 16

  datatype Outcome = PhaseContinue | PhaseNeedsReview | BlockedNeedsOperator | PlanComplete

  datatype Kind = ReviewReady | OperatorAttention | PlanDone | ContinuationFailed

  datatype Attempt = Attempt(owner: nat, outcome: Outcome, offered: bool)

  /** `token` is the identity of the attempt. */
  datatype Record = Record(token: nat, kind: Kind, count: nat)

  datatype Diagnostics = Diagnostics(omitted: nat, repeated: nat, rejected: nat)

  /** `attempts` are the attempts of this owner and of any other. */
  datatype Pool = Pool(owner: nat, closed: bool, records: seq<Record>, diagnostics: Diagnostics,
                       revision: Option<nat>, attempts: map<nat, Attempt>)

  datatype Admission = Admitted | Updated | AlreadyReported | Omitted | NotRequested | RejectedClosed | RejectedForeign

  function Saturate(n: nat): (r: nat)
    ensures r <= U64_MAX && (r == n + 1 || r == n == U64_MAX || (r == U64_MAX < n))
  {
    if n < U64_MAX then n + 1 else U64_MAX
  }

  /** The index of the token's first record, or the number of records. */
  function Position(records: seq<Record>, token: nat): (k: nat)
    ensures k <= |records| && (k < |records| ==> records[k].token == token)
    ensures forall j :: 0 <= j < k ==> records[j].token != token
  {
    if records == [] || records[0].token == token then 0 else 1 + Position(records[1..], token)
  }

  /** `changed` */
  function Changed(p: Pool): (p': Pool)
  {
    p.(revision := if p.revision.Some? then CheckedNext(p.revision.value) else None)
  }

  function TerminalKind(outcome: Outcome): (kind: Option<Kind>)
  {
    match outcome
    case PhaseContinue => None
    case PhaseNeedsReview => Some(ReviewReady)
    case BlockedNeedsOperator => Some(OperatorAttention)
    case PlanComplete => Some(PlanDone)
  }

  function FailureKind(outcome: Outcome): (kind: Option<Kind>)
  {
    if outcome == PhaseContinue then Some(ContinuationFailed) else None
  }

  function KindOf(outcome: Outcome, terminal: bool): (kind: Option<Kind>)
  {
    if terminal then TerminalKind(outcome) else FailureKind(outcome)
  }

  function Track(p: Pool, id: nat, outcome: Outcome): (p': Pool)
  {
    if p.closed then p else p.(attempts := p.attempts[id := Attempt(p.owner, outcome, false)])
  }

  /** A report that is neither refused nor without a kind. */
  predicate Counted(p: Pool, a: nat, kind: Option<Kind>)
  {
    a in p.attempts && p.attempts[a].owner == p.owner && !p.closed && kind.Some?
  }

  /** A repeated report only raises the count of a record still there. */
  function Repeat(p: Pool, a: nat): (r: (Pool, Admission))
  {
    var q := p.(diagnostics := p.diagnostics.(repeated := Saturate(p.diagnostics.repeated)));
    var k := Position(p.records, a);
    if k == |p.records| then (q, AlreadyReported)
    else (Changed(q.(records := p.records[k := p.records[k].(count := Saturate(p.records[k].count))])), Updated)
  }

  /** The first report of an attempt, which finds room or is omitted. */
  function Offer(p: Pool, a: nat, kind: Kind): (r: (Pool, Admission))
    requires a in p.attempts
  {
    var q := p.(attempts := p.attempts[a := p.attempts[a].(offered := true)]);
    if |p.records| == CAPACITY then
      (q.(diagnostics := p.diagnostics.(omitted := Saturate(p.diagnostics.omitted))), Omitted)
    else (Changed(q.(records := p.records + [Record(a, kind, 1)])), Admitted)
  }

  function Report(p: Pool, a: nat, kind: Option<Kind>): (r: (Pool, Admission))
    requires a in p.attempts
  {
    var rejected := p.(diagnostics := p.diagnostics.(rejected := Saturate(p.diagnostics.rejected)));
    if p.attempts[a].owner != p.owner then (rejected, RejectedForeign)
    else if p.closed then (rejected, RejectedClosed)
    else if kind.None? then (p, NotRequested)
    else if p.attempts[a].offered then Repeat(p, a)
    else Offer(p, a, kind.value)
  }

  function Acknowledge(p: Pool, a: nat): (r: (Pool, bool))
  {
    var k := Position(p.records, a);
    if a !in p.attempts || p.attempts[a].owner != p.owner || p.closed || k == |p.records| then (p, false)
    else (Changed(p.(records := p.records[..k] + p.records[k + 1..])), true)
  }

  function Close(p: Pool): (p': Pool)
  {
    (if p.closed then p else Changed(p.(closed := true))).(records := [])
  }

  // The pool in place

  class ProcessLifecycleAttentionPool {
    const owner: nat
    var closed: bool
    var records: seq<Record>
    var diagnostics: Diagnostics
    var revision: Option<nat>
    var attempts: map<nat, Attempt>

    ghost function Value(): (p: Pool)
      reads this
    {
      Pool(owner, closed, records, diagnostics, revision, attempts)
    }

    constructor (owner: nat, attempts: map<nat, Attempt>)
      ensures Value() == Pool(owner, false, [], Diagnostics(0, 0, 0), Some(0), attempts)
    {
      this.owner, closed, records, diagnostics := owner, false, [], Diagnostics(0, 0, 0);
      revision, this.attempts := Some(0), attempts;
    }

    method FindRecord(token: nat) returns (k: nat)
      ensures k == Position(records, token)
    {
      k := 0;
      while k < |records| && records[k].token != token
        invariant k <= |records| && Position(records, token) == k + Position(records[k..], token)
      {
        k := k + 1;
      }
    }

    method BumpRevision()
      modifies this`revision
      ensures Value() == Changed(old(Value()))
    {
      if revision.Some? {
        revision := CheckedNext(revision.value);
      }
    }

    method ReportAttempt(a: nat, kind: Option<Kind>) returns (r: Admission)
      requires a in attempts
      modifies this
      ensures (Value(), r) == Report(old(Value()), a, kind)
    {
      if attempts[a].owner != owner || closed {
        diagnostics := diagnostics.(rejected := Saturate(diagnostics.rejected));
        return if attempts[a].owner != owner then RejectedForeign else RejectedClosed;
      }
      if kind.None? {
        return NotRequested;
      }
      if attempts[a].offered {
        diagnostics := diagnostics.(repeated := Saturate(diagnostics.repeated));
        var k := FindRecord(a);
        if k == |records| {
          return AlreadyReported;
        }
        records := records[k := records[k].(count := Saturate(records[k].count))];
        BumpRevision();
        return Updated;
      }
      attempts := attempts[a := attempts[a].(offered := true)];
      if |records| == CAPACITY {
        diagnostics := diagnostics.(omitted := Saturate(diagnostics.omitted));
        return Omitted;
      }
      records := records + [Record(a, kind.value, 1)];
      BumpRevision();
      return Admitted;
    }

    method AcknowledgeToken(a: nat) returns (ok: bool)
      requires a in attempts
      modifies this`records, this`revision
      ensures (Value(), ok) == Acknowledge(old(Value()), a)
    {
      if attempts[a].owner != owner || closed {
        return false;
      }
      var k := FindRecord(a);
      if k == |records| {
        return false;
      }
      records := records[..k] + records[k + 1..];
      BumpRevision();
      return true;
    }

    method CloseAll()
      modifies this`closed, this`records, this`revision
      ensures Value() == Close(old(Value()))
    {
      if !closed {
        closed := true;
        BumpRevision();
      }
      records := [];
    }
  }

  // Runs

  /** `reports` counts the reports of each attempt that were neither refused nor without a kind. */
  datatype World = World(pool: Pool, reports: map<nat, nat>)

  datatype Op =
    | TrackOp(id: nat, outcome: Outcome)
    | ReportOp(attempt: nat, terminal: bool)
    | AcknowledgeOp(token: nat)
    | CloseOp

  predicate Enabled(w: World, op: Op)
  {
    match op
    case TrackOp(id, _) => id !in w.pool.attempts
    case ReportOp(a, _) => a in w.pool.attempts
    case _ => true
  }

  function Reports(w: World, a: nat): (n: nat)
  {
    if a in w.reports then w.reports[a] else 0
  }

  function Next(w: World, op: Op): (w': World)
    requires Enabled(w, op)
  {
    match op
    case TrackOp(id, outcome) => w.(pool := Track(w.pool, id, outcome))
    case ReportOp(a, terminal) =>
      var kind := KindOf(w.pool.attempts[a].outcome, terminal);
      World(Report(w.pool, a, kind).0,
            if Counted(w.pool, a, kind) then w.reports[a := Reports(w, a) + 1] else w.reports)
    case AcknowledgeOp(a) => w.(pool := Acknowledge(w.pool, a).0)
    case CloseOp => w.(pool := Close(w.pool))
  }

  predicate Has(p: Pool, a: nat)
  {
    Position(p.records, a) < |p.records|
  }

  ghost predicate Distinct(records: seq<Record>)
  {
    forall j, k :: 0 <= j < k < |records| ==> records[j].token != records[k].token
  }

  /** What a record says of its attempt. */
  predicate Apt(w: World, r: Record)
  {
    && r.token in w.pool.attempts && w.pool.attempts[r.token].owner == w.pool.owner && w.pool.attempts[r.token].offered
    && (KindOf(w.pool.attempts[r.token].outcome, true) == Some(r.kind) ||
        KindOf(w.pool.attempts[r.token].outcome, false) == Some(r.kind))
    && 0 < Reports(w, r.token) && r.count == (if Reports(w, r.token) < U64_MAX then Reports(w, r.token) else U64_MAX)
  }

  /** An own attempt is marked offered exactly when it has been reported. */
  predicate Marked(w: World, a: nat)
  {
    a in w.pool.attempts && w.pool.attempts[a].owner == w.pool.owner ==>
      (w.pool.attempts[a].offered <==> Reports(w, a) > 0)
  }

  predicate Unknown(w: World, a: nat)
  {
    a !in w.pool.attempts ==> a !in w.reports
  }

  ghost predicate Inv(w: World)
  {
    && |w.pool.records| <= CAPACITY && Distinct(w.pool.records) && (w.pool.closed ==> w.pool.records == [])
    && (forall k :: 0 <= k < |w.pool.records| ==> Apt(w, w.pool.records[k]))
    && (forall a: nat :: Marked(w, a)) && (forall a: nat :: Unknown(w, a))
  }

  lemma PositionOf(records: seq<Record>, k: nat)
    requires Distinct(records) && k < |records|
    ensures Position(records, records[k].token) == k
  {
  }

  lemma MarkedKept(w: World, op: Op, a: nat)
    requires Enabled(w, op) && Marked(w, a) && Unknown(w, a)
    ensures Marked(Next(w, op), a) && Unknown(Next(w, op), a)
  {
  }

  lemma DistinctReport(w: World, op: Op)
    requires Inv(w) && Enabled(w, op) && op.ReportOp?
    ensures |Next(w, op).pool.records| <= CAPACITY && Distinct(Next(w, op).pool.records)
  {
  }

  lemma DistinctKept(w: World, op: Op)
    requires Inv(w) && Enabled(w, op)
    ensures |Next(w, op).pool.records| <= CAPACITY && Distinct(Next(w, op).pool.records)
    ensures Next(w, op).pool.closed ==> Next(w, op).pool.records == []
  {
    if op.ReportOp? {
      DistinctReport(w, op);
    }
  }

  /** A record of the next state is an old record, perhaps counted once more, or the record just admitted. */
  lemma ReportSources(w: World, op: Op, k: nat)
    requires Inv(w) && Enabled(w, op) && op.ReportOp? && k < |Next(w, op).pool.records|
    ensures Apt(Next(w, op), Next(w, op).pool.records[k])
  {
    assert Marked(w, op.attempt);
    if k < |w.pool.records| {
      assert Apt(w, w.pool.records[k]);
      PositionOf(w.pool.records, k);
    }
  }

  lemma AptKept(w: World, op: Op, k: nat)
    requires Inv(w) && Enabled(w, op) && k < |Next(w, op).pool.records|
    ensures Apt(Next(w, op), Next(w, op).pool.records[k])
  {
    match op
    case ReportOp(_, _) => ReportSources(w, op, k);
    case TrackOp(_, _) => assert Apt(w, w.pool.records[k]);
    case AcknowledgeOp(a) =>
      assert Next(w, op).pool.records[k] == w.pool.records[k] || Next(w, op).pool.records[k] == w.pool.records[k + 1];
    case CloseOp =>
  }

  lemma InvKept(w: World, op: Op)
    requires Inv(w) && Enabled(w, op)
    ensures Inv(Next(w, op))
  {
    DistinctKept(w, op);
    forall k | 0 <= k < |Next(w, op).pool.records|
      ensures Apt(Next(w, op), Next(w, op).pool.records[k])
    {
      AptKept(w, op, k);
    }
    forall a: nat
      ensures Marked(Next(w, op), a) && Unknown(Next(w, op), a)
    {
      assert Marked(w, a) && Unknown(w, a);
      MarkedKept(w, op, a);
    }
  }

  /** An open pool without records; attempts of other owners may exist already. */
  predicate Start(w: World)
  {
    && w.pool == Pool(w.pool.owner, false, [], Diagnostics(0, 0, 0), Some(0), w.pool.attempts) && w.reports == map[]
    && (forall a :: a in w.pool.attempts ==> w.pool.attempts[a].owner != w.pool.owner)
  }

  ghost predicate Run(ws: seq<World>, ops: seq<Op>)
  {
    && |ws| == |ops| + 1 && Start(ws[0])
    && (forall i :: 0 <= i < |ops| ==> Enabled(ws[i], ops[i]) && ws[i + 1] == Next(ws[i], ops[i]))
  }

  lemma {:induction false} RunInv(ws: seq<World>, ops: seq<Op>, i: nat)
    requires Run(ws, ops) && i < |ws|
    ensures Inv(ws[i])
  {
    if i > 0 {
      RunInv(ws, ops, i - 1);
      InvKept(ws[i - 1], ops[i - 1]);
    }
  }

  /** In every state of every run there are at most 16 records, of distinct attempts of this owner, each with the kind
      its outcome calls for and with as many reports counted as there were since its admission, up to saturation. */
  lemma RecordsExact(ws: seq<World>, ops: seq<Op>, i: nat, j: nat, k: nat)
    requires Run(ws, ops) && i < |ws| && j < |ws[i].pool.records| && k < |ws[i].pool.records|
    ensures |ws[i].pool.records| <= CAPACITY && Apt(ws[i], ws[i].pool.records[k])
    ensures ws[i].pool.records[j].token == ws[i].pool.records[k].token ==> j == k
  {
    RunInv(ws, ops, i);
  }

  predicate Admits(w: World, op: Op, a: nat)
  {
    op.ReportOp? && op.attempt == a && Enabled(w, op) &&
    Report(w.pool, a, KindOf(w.pool.attempts[a].outcome, op.terminal)).1 == Admitted
  }

  /** An attempt that has been offered and has no record. */
  predicate Gone(w: World, a: nat)
  {
    a in w.pool.attempts && w.pool.attempts[a].owner == w.pool.owner && w.pool.attempts[a].offered && !Has(w.pool, a)
  }

  predicate Offered(w: World, a: nat)
  {
    a in w.pool.attempts && w.pool.attempts[a].offered
  }

  lemma OfferedStep(w: World, op: Op, a: nat)
    requires Enabled(w, op) && Offered(w, a)
    ensures Offered(Next(w, op), a) && !Admits(w, op, a)
  {
  }

  lemma {:induction false} OfferedForGood(ws: seq<World>, ops: seq<Op>, i: nat, j: nat, a: nat)
    requires Run(ws, ops) && i <= j < |ws| && Offered(ws[i], a)
    ensures Offered(ws[j], a)
  {
    if i < j {
      OfferedForGood(ws, ops, i, j - 1, a);
      OfferedStep(ws[j - 1], ops[j - 1], a);
    }
  }

  /** No attempt is admitted twice in one run. */
  lemma AdmittedOnce(ws: seq<World>, ops: seq<Op>, i: nat, j: nat, a: nat)
    requires Run(ws, ops) && i < j < |ops| && Admits(ws[i], ops[i], a)
    ensures !Admits(ws[j], ops[j], a)
  {
    OfferedForGood(ws, ops, i + 1, j, a);
    OfferedStep(ws[j], ops[j], a);
  }

  lemma HasElsewhere(records: seq<Record>, k: nat, a: nat)
    requires Position(records, a) == |records| && k < |records|
    ensures Position(records[..k] + records[k + 1..], a) == |records| - 1
  {
  }

  lemma GoneStep(w: World, op: Op, a: nat)
    requires Enabled(w, op) && Gone(w, a)
    ensures Gone(Next(w, op), a)
  {
    match op
    case AcknowledgeOp(t) =>
      if Acknowledge(w.pool, t).1 {
        HasElsewhere(w.pool.records, Position(w.pool.records, t), a);
      }
    case ReportOp(b, terminal) => GoneReport(w.pool, b, KindOf(w.pool.attempts[b].outcome, terminal), a);
    case _ =>
  }

  lemma GoneReport(p: Pool, b: nat, kind: Option<Kind>, a: nat)
    requires b in p.attempts && a in p.attempts && p.attempts[a].offered && !Has(p, a)
    ensures !Has(Report(p, b, kind).0, a)
  {
  }

  /** An attempt once offered and without a record never has one again. */
  lemma {:induction false} NeverReappears(ws: seq<World>, ops: seq<Op>, i: nat, j: nat, a: nat)
    requires Run(ws, ops) && i <= j < |ws| && Gone(ws[i], a)
    ensures Gone(ws[j], a)
  {
    if i < j {
      NeverReappears(ws, ops, i, j - 1, a);
      GoneStep(ws[j - 1], ops[j - 1], a);
    }
  }

  /** A step that omits the attempt, acknowledges it, or closes the pool after it was offered. */
  predicate Dismisses(w: World, op: Op, a: nat)
  {
    match op
    case TrackOp(_, _) => false
    case ReportOp(b, terminal) =>
      a == b && a in w.pool.attempts &&
      Report(w.pool, a, KindOf(w.pool.attempts[a].outcome, terminal)).1 == Omitted
    case AcknowledgeOp(b) => a == b && Acknowledge(w.pool, a).1
    case CloseOp => Offered(w, a) && w.pool.attempts[a].owner == w.pool.owner
  }

  lemma DismissedIsGone(w: World, op: Op, a: nat)
    requires Inv(w) && Enabled(w, op) && Dismisses(w, op, a)
    ensures Gone(Next(w, op), a)
  {
  }

  /** An attempt that was omitted, acknowledged or closed out has no record in any later state. */
  lemma DismissedForGood(ws: seq<World>, ops: seq<Op>, i: nat, j: nat, a: nat)
    requires Run(ws, ops) && i < j < |ws| && Dismisses(ws[i], ops[i], a)
    ensures !Has(ws[j].pool, a)
  {
    RunInv(ws, ops, i);
    DismissedIsGone(ws[i], ops[i], a);
    NeverReappears(ws, ops, i + 1, j, a);
  }

  /** A closed pool stays closed and empty, and no report or acknowledgement of it succeeds. */
  lemma {:induction false} ClosedForGood(ws: seq<World>, ops: seq<Op>, i: nat, j: nat)
    requires Run(ws, ops) && i <= j < |ws| && ws[i].pool.closed
    ensures ws[j].pool.closed && ws[j].pool.records == [] && ws[j].pool.revision == ws[i].pool.revision
  {
    RunInv(ws, ops, j);
    if i < j {
      ClosedForGood(ws, ops, i, j - 1);
    }
  }

  /** A step keeps the revision and the records, raises the revision by one, or loses it for good. */
  lemma StepRevision(p: Pool, op: Op, reports: map<nat, nat>)
    requires Enabled(World(p, reports), op) && (p.closed ==> p.records == [])
    ensures var q := Next(World(p, reports), op).pool;
            q.revision.None? ||
            (p.revision.Some? && (q.revision.value == p.revision.value + 1 ||
                                  (q.revision == p.revision && q.records == p.records)))
  {
  }

  lemma {:induction false} RevisionsRise(ws: seq<World>, ops: seq<Op>, i: nat, j: nat)
    requires Run(ws, ops) && i <= j < |ws| && ws[j].pool.revision.Some?
    ensures ws[i].pool.revision.Some? && ws[i].pool.revision.value <= ws[j].pool.revision.value
    ensures ws[i].pool.revision == ws[j].pool.revision ==> ws[i].pool.records == ws[j].pool.records
  {
    if i < j {
      RunInv(ws, ops, j - 1);
      StepRevision(ws[j - 1].pool, ops[j - 1], ws[j - 1].reports);
      RevisionsRise(ws, ops, i, j - 1);
    }
  }

  /** Equal available revisions mean equal record lists. */
  lemma EqualRevisionsEqualRecords(ws: seq<World>, ops: seq<Op>, i: nat, j: nat)
    requires Run(ws, ops) && i < |ws| && j < |ws|
    requires ws[i].pool.revision.Some? && ws[i].pool.revision == ws[j].pool.revision
    ensures ws[i].pool.records == ws[j].pool.records
  {
    if i <= j {
      RevisionsRise(ws, ops, i, j);
    } else {
      RevisionsRise(ws, ops, j, i);
    }
  }

  // Diagnostics

  datatype Class = Omission | Repetition | Rejection | Unremarked

  function ClassOf(r: Admission): (c: Class)
  {
    match r
    case Omitted => Omission
    case Updated => Repetition
    case AlreadyReported => Repetition
    case RejectedClosed => Rejection
    case RejectedForeign => Rejection
    case _ => Unremarked
  }

  function StepClass(w: World, op: Op): (c: Class)
    requires Enabled(w, op)
  {
    if op.ReportOp? then ClassOf(Report(w.pool, op.attempt, KindOf(w.pool.attempts[op.attempt].outcome, op.terminal)).1)
    else Unremarked
  }

  /** How many of the first `i` steps have the class. */
  function Tally(classes: seq<Class>, i: nat, c: Class): (n: nat)
    requires i <= |classes|
  {
    if i == 0 then 0 else Tally(classes, i - 1, c) + if classes[i - 1] == c then 1 else 0
  }

  function Capped(n: nat): (m: nat)
  {
    if n < U64_MAX then n else U64_MAX
  }

  predicate Tallied(d: Diagnostics, classes: seq<Class>, i: nat)
    requires i <= |classes|
  {
    d == Diagnostics(Capped(Tally(classes, i, Omission)), Capped(Tally(classes, i, Repetition)),
                     Capped(Tally(classes, i, Rejection)))
  }

  lemma DiagnosticsStep(w: World, op: Op)
    requires Enabled(w, op)
    ensures var (d, e, c) := (w.pool.diagnostics, Next(w, op).pool.diagnostics, StepClass(w, op));
            && e.omitted == (if c == Omission then Saturate(d.omitted) else d.omitted)
            && e.repeated == (if c == Repetition then Saturate(d.repeated) else d.repeated)
            && e.rejected == (if c == Rejection then Saturate(d.rejected) else d.rejected)
  {
  }

  /** The diagnostics count the reports omitted, repeated and rejected, up to saturation. */
  lemma {:induction false} DiagnosticsExact(ws: seq<World>, ops: seq<Op>, classes: seq<Class>, i: nat)
    requires Run(ws, ops) && i < |ws|
    requires |classes| == |ops| && forall k :: 0 <= k < |ops| ==> classes[k] == StepClass(ws[k], ops[k])
    ensures Tallied(ws[i].pool.diagnostics, classes, i)
  {
    if i > 0 {
      DiagnosticsExact(ws, ops, classes, i - 1);
      DiagnosticsStep(ws[i - 1], ops[i - 1]);
    }
  }

  // What every call answers

  function AnswerOf(w: World, op: Op): (r: Admission)
    requires Enabled(w, op) && op.ReportOp?
  {
    Report(w.pool, op.attempt, KindOf(w.pool.attempts[op.attempt].outcome, op.terminal)).1
  }

  /** The record to be made of an outcome, for a terminal report and for a report of a failed continuation. */
  lemma KindTable()
    ensures KindOf(PhaseContinue, true) == None && KindOf(PhaseContinue, false) == Some(ContinuationFailed)
    ensures KindOf(PhaseNeedsReview, true) == Some(ReviewReady) && KindOf(PhaseNeedsReview, false) == None
    ensures KindOf(BlockedNeedsOperator, true) == Some(OperatorAttention) && KindOf(BlockedNeedsOperator, false) == None
    ensures KindOf(PlanComplete, true) == Some(PlanDone) && KindOf(PlanComplete, false) == None
  {
  }

  /** The pool holds a record of this attempt. */
  ghost predicate Listed(p: Pool, a: nat)
  {
    exists k :: 0 <= k < |p.records| && p.records[k].token == a
  }

  lemma ListedIff(p: Pool, a: nat)
    ensures Listed(p, a) <==> Has(p, a)
  {
    if Has(p, a) {
      assert p.records[Position(p.records, a)].token == a;
    }
  }

  /** A report is refused to a foreign attempt and by a closed pool. The first one of an attempt is admitted if and only
      if there are fewer than 16 records; a later one updates its record if that is still there. */
  lemma ReportAnswer(ws: seq<World>, ops: seq<Op>, i: nat)
    requires Run(ws, ops) && i < |ops| && ops[i].ReportOp?
    ensures var (w, a) := (ws[i], ops[i].attempt);
            AnswerOf(w, ops[i]) ==
            if w.pool.attempts[a].owner != ws[i].pool.owner then RejectedForeign
            else if w.pool.closed then RejectedClosed
            else if ops[i].terminal <==> w.pool.attempts[a].outcome == PhaseContinue then NotRequested
            else if Reports(w, a) == 0 then (if |w.pool.records| < 16 then Admitted else Omitted)
            else if Listed(w.pool, a) then Updated else AlreadyReported
  {
    RunInv(ws, ops, i);
    assert Marked(ws[i], ops[i].attempt);
    ListedIff(ws[i].pool, ops[i].attempt);
  }

  /** What a report does to the list: an admitted record goes to its end, an update only raises one count, and nothing
      else changes it. */
  lemma ReportedRecords(ws: seq<World>, ops: seq<Op>, i: nat, k: nat)
    requires Run(ws, ops) && i < |ops| && ops[i].ReportOp? && k < |ws[i].pool.records|
    ensures var (before, after, a) := (ws[i].pool.records, ws[i + 1].pool.records, ops[i].attempt);
            && |after| == |before| + One(AnswerOf(ws[i], ops[i]) == Admitted)
            && after[k].token == before[k].token && after[k].kind == before[k].kind
            && after[k].count == if AnswerOf(ws[i], ops[i]) == Updated && before[k].token == a
                                then Saturate(before[k].count) else before[k].count
  {
    RunInv(ws, ops, i);
    PositionOf(ws[i].pool.records, k);
  }

  lemma AdmittedRecord(ws: seq<World>, ops: seq<Op>, i: nat)
    requires Run(ws, ops) && i < |ops| && ops[i].ReportOp? && AnswerOf(ws[i], ops[i]) == Admitted
    ensures ws[i + 1].pool.records ==
            ws[i].pool.records +
            [Record(ops[i].attempt,
                    match ws[i].pool.attempts[ops[i].attempt].outcome
                    case PhaseContinue => ContinuationFailed
                    case PhaseNeedsReview => ReviewReady
                    case BlockedNeedsOperator => OperatorAttention
                    case PlanComplete => PlanDone,
                    1)]
  {
  }

  /** An acknowledgement succeeds if and only if an open pool lists its own attempt; it takes that record out and keeps
      the others in their order. */
  lemma AcknowledgeAnswer(ws: seq<World>, ops: seq<Op>, i: nat)
    requires Run(ws, ops) && i < |ops| && ops[i].AcknowledgeOp?
    ensures Acknowledge(ws[i].pool, ops[i].token).1 <==> Listed(ws[i].pool, ops[i].token)
    ensures Listed(ws[i].pool, ops[i].token) ==>
              exists k :: 0 <= k < |ws[i].pool.records| && ws[i].pool.records[k].token == ops[i].token &&
                          ws[i + 1].pool.records == ws[i].pool.records[..k] + ws[i].pool.records[k + 1..]
    ensures !Listed(ws[i].pool, ops[i].token) ==> ws[i + 1].pool == ws[i].pool
  {
    var (p, a) := (ws[i].pool, ops[i].token);
    RunInv(ws, ops, i);
    ListedIff(p, a);
    if Listed(p, a) {
      var k := Position(p.records, a);
      assert Apt(ws[i], p.records[k]);
      assert ws[i + 1].pool.records == p.records[..k] + p.records[k + 1..];
    }
  }

  /** An attempt is taken on, with its outcome, exactly while the pool is open. */
  lemma TrackAnswer(ws: seq<World>, ops: seq<Op>, i: nat)
    requires Run(ws, ops) && i < |ops| && ops[i].TrackOp?
    ensures var m := ws[i + 1].pool.attempts;
            if ws[i].pool.closed then m == ws[i].pool.attempts
            else ops[i].id in m && m[ops[i].id].owner == ws[i].pool.owner && m[ops[i].id].outcome == ops[i].outcome
  {
  }

  /** A step that a reader of the records must hear of. */
  predicate Bumps(w: World, op: Op)
    requires Enabled(w, op)
  {
    match op
    case TrackOp(_, _) => false
    case ReportOp(_, _) => AnswerOf(w, op) == Admitted || AnswerOf(w, op) == Updated
    case AcknowledgeOp(a) => Acknowledge(w.pool, a).1
    case CloseOp => !w.pool.closed
  }

  function BumpsOf(bumps: seq<bool>, i: nat): (n: nat)
    requires i <= |bumps|
  {
    if i == 0 then 0 else BumpsOf(bumps, i - 1) + One(bumps[i - 1])
  }

  lemma BumpStep(w: World, op: Op)
    requires Enabled(w, op)
    ensures Next(w, op).pool.revision ==
            if Bumps(w, op) then (if w.pool.revision.Some? && w.pool.revision.value < U64_MAX
                                  then Some(w.pool.revision.value + 1) else None)
            else w.pool.revision
  {
  }

  /** The revision counts the changes, and is lost exactly when there were more than it can count. */
  lemma {:induction false} RevisionExact(ws: seq<World>, ops: seq<Op>, bumps: seq<bool>, i: nat)
    requires Run(ws, ops) && i < |ws|
    requires |bumps| == |ops| && forall k :: 0 <= k < |ops| ==> bumps[k] == Bumps(ws[k], ops[k])
    ensures ws[i].pool.revision ==
            if BumpsOf(bumps, i) <= 0xFFFF_FFFF_FFFF_FFFF then Some(BumpsOf(bumps, i)) else None
  {
    if i > 0 {
      RevisionExact(ws, ops, bumps, i - 1);
      BumpStep(ws[i - 1], ops[i - 1]);
    }
  }
}
