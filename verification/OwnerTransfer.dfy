/** Transfer of sealed asset sets from draft to accepted input to submitted turn item. */
module OwnerTransfer {
  import opened Common

  datatype Owner = CurrentDraft(id: nat) | AcceptedInput(id: nat) | SubmittedTurnItem(id: nat)

  /** `assets` is the sealed proof of the reference set. */
  datatype Head = Head(owner: Owner, assets: nat, revision: nat)

  /** The form of a first acceptance, or the promotion of an accepted input. */
  datatype Kind = Idle(item: nat) | Accepted | Promoted

  datatype Status = ExactOld | ExactNew(kind: Kind) | Collision

  datatype Error =
    | ConcurrentReconciliation | FirstAcceptanceCollision
    | MissingOwnerHead(owner: Owner) | OwnerHeadMismatch | DestinationOwnerCollision(owner: Owner)
    | RevisionConflict | SyndicRejected

  /** One acceptance or promotion; `id` stands for its other facts. */
  datatype Transfer = Transfer(id: nat, proof: Option<nat>, source: Owner, destination: Owner, kind: Kind)

  type Heads = map<Owner, Head>

  /** `record` is the other domain's record of the transfer that each draft or accepted input went by, and `collided`
      are the transfers that it can no longer bring to their old or new state. */
  datatype Home = Home(revision: nat, heads: Heads, record: map<Owner, Transfer>, collided: set<Transfer>)

  /** `expected` is the source head of an update; a command without it only validates that both heads are absent. */
  datatype Command = Command(revision: nat, transfer: Transfer, expected: Option<Head>)

  datatype Built = Execute(command: Command) | AlreadyAccepted(kind: Kind)

  const INITIAL: nat := 1

  /** The accepted input has the identity of its draft. */
  function FirstAcceptance(id: nat, draft: nat, gateIdle: bool, item: nat, proof: Option<nat>): (t: Transfer)
    ensures Formed(t)
  {
    var kind := if gateIdle then Idle(item) else Accepted;
    var destination := if kind.Idle? then SubmittedTurnItem(kind.item) else AcceptedInput(draft);
    Transfer(id, proof, CurrentDraft(draft), destination, kind)
  }

  function Promotion(id: nat, accepted: nat, item: nat, proof: Option<nat>): (t: Transfer)
    ensures Formed(t)
  {
    Transfer(id, proof, AcceptedInput(accepted), SubmittedTurnItem(item), Promoted)
  }

  function Rank(o: Owner): (n: nat)
  {
    match o
    case CurrentDraft(_) => 0
    case AcceptedInput(_) => 1
    case SubmittedTurnItem(_) => 2
  }

  /** A first acceptance or a promotion: forward from draft over accepted input to turn item. */
  predicate Formed(t: Transfer)
    ensures Formed(t) ==> Rank(t.source) < Rank(t.destination)
  {
    match t.source
    case CurrentDraft(d) =>
      (t.destination == AcceptedInput(d) && t.kind == Accepted) ||
      (t.destination.SubmittedTurnItem? && t.kind == Idle(t.destination.id))
    case AcceptedInput(_) => t.destination.SubmittedTurnItem? && t.kind == Promoted
    case SubmittedTurnItem(_) => false
  }

  function At(m: Heads, o: Owner): (head: Option<Head>)
  {
    if o in m then Some(m[o]) else None
  }

  function HeadOf(h: Home, o: Owner): (head: Option<Head>)
  {
    At(h.heads, o)
  }

  function StatusOf(h: Home, t: Transfer): (s: Status)
  {
    if t in h.collided then Collision
    else if t.source !in h.record then ExactOld
    else if h.record[t.source] == t then ExactNew(t.kind)
    else Collision
  }

  predicate Matches(head: Option<Head>, owner: Owner, proof: nat)
  {
    head.Some? && head.value.owner == owner && head.value.assets == proof
  }

  /** The status of a transfer from the other domain's record and the two heads. */
  function Classify(t: Transfer, status: Status, source: Option<Head>, destination: Option<Head>): (s: Status)
  {
    var assets :=
      if t.proof.Some? && Matches(source, t.source, t.proof.value) && destination.None? then ExactOld
      else if t.proof.Some? && source.None? && Matches(destination, t.destination, t.proof.value) then ExactNew(t.kind)
      else if t.proof.None? && source.None? && destination.None? then status
      else Collision;
    if status == assets then status else Collision
  }

  /** The status of a transfer in one state of the home. */
  function StatusAt(h: Home, t: Transfer): (s: Status)
  {
    Classify(t, StatusOf(h, t), HeadOf(h, t.source), HeadOf(h, t.destination))
  }

  // Readers: each read sees the home as it is at that moment

  datatype Observation = Observation(status: Status, source: Option<Head>, destination: Option<Head>)

  function Observe(a: Home, b: Home, c: Home, t: Transfer): (o: Observation)
  {
    Observation(StatusOf(a, t), HeadOf(b, t.source), HeadOf(c, t.destination))
  }

  /** `first_acceptance_status_for`: six reads. */
  function FirstStatus(seen: seq<Home>, t: Transfer): (r: Result<Status, Error>)
    requires |seen| >= 6
  {
    var observed := Observe(seen[0], seen[1], seen[2], t);
    var confirmed := Observe(seen[3], seen[4], seen[5], t);
    if observed != confirmed then Err(ConcurrentReconciliation)
    else Ok(Classify(t, confirmed.status, confirmed.source, confirmed.destination))
  }

  /** `accepted_input_promotion_status`: the two heads, the status, the two heads again. */
  function PromotionStatus(seen: seq<Home>, t: Transfer): (r: Result<Status, Error>)
    requires |seen| >= 5
  {
    var observed := (HeadOf(seen[0], t.source), HeadOf(seen[1], t.destination));
    var confirmed := (HeadOf(seen[3], t.source), HeadOf(seen[4], t.destination));
    if observed != confirmed then Err(ConcurrentReconciliation)
    else Ok(Classify(t, StatusOf(seen[2], t), confirmed.0, confirmed.1))
  }

  /** `command_with_owner_transfer`: the home revision, then the two heads. */
  function CommandFor(atRevision: Home, atSource: Home, atDestination: Home, t: Transfer): (r: Result<Command, Error>)
  {
    if t.proof.None? then Ok(Command(atRevision.revision, t, None))
    else
      var source := HeadOf(atSource, t.source);
      if source.None? then Err(MissingOwnerHead(t.source))
      else if !Matches(source, t.source, t.proof.value) then Err(OwnerHeadMismatch)
      else if HeadOf(atDestination, t.destination).Some? then Err(DestinationOwnerCollision(t.destination))
      else Ok(Command(atRevision.revision, t, source))
  }

  /** `build_first_acceptance_command` */
  function BuildAcceptance(seen: seq<Home>, t: Transfer): (r: Result<Built, Error>)
    requires |seen| == 9
  {
    match FirstStatus(seen, t)
    case Err(e) => Err(e)
    case Ok(ExactNew(kind)) => Ok(AlreadyAccepted(kind))
    case Ok(Collision) => Err(FirstAcceptanceCollision)
    case Ok(ExactOld) =>
      match CommandFor(seen[6], seen[7], seen[8], t)
      case Err(e) => Err(e)
      case Ok(command) => Ok(Execute(command))
  }

  // The atomic commit

  predicate Expected(head: Option<Head>, expected: Option<Head>)
  {
    if expected.None? then head.None?
    else head.Some? && head.value.assets == expected.value.assets && head.value.revision == expected.value.revision
  }

  /** The asset domain's part of a commit: the heads it expects, and then the two updates. */
  function CommitHeads(m: Heads, c: Command): (r: Option<Heads>)
  {
    var t := c.transfer;
    if !Expected(At(m, t.source), c.expected) || t.destination in m then None
    else if c.expected.None? || t.proof.None? then Some(m)
    else Some((m - {t.source})[t.destination := Head(t.destination, t.proof.value, INITIAL)])
  }

  /** A command commits at the home revision it was built at, against the heads it expects, and only for a transfer
      that the other domain still finds in its old state: an identity that went by a transfer goes by no other. */
  function Commit(h: Home, c: Command): (r: Result<Home, Error>)
  {
    if h.revision != c.revision then Err(RevisionConflict)
    else if StatusOf(h, c.transfer) != ExactOld then Err(SyndicRejected)
    else
      match CommitHeads(h.heads, c)
      case None => Err(OwnerHeadMismatch)
      case Some(heads) => Ok(Home(h.revision + 1, heads, h.record[c.transfer.source := c.transfer], h.collided))
  }

  /** A command as `CommandFor` builds it. */
  predicate Proper(c: Command)
  {
    && Formed(c.transfer) && (c.expected.None? <==> c.transfer.proof.None?)
    && (c.expected.Some? ==> c.expected.value.assets == c.transfer.proof.value)
  }

  lemma BuiltIsProper(atRevision: Home, atSource: Home, atDestination: Home, t: Transfer)
    requires Formed(t) && CommandFor(atRevision, atSource, atDestination, t).Ok?
    ensures Proper(CommandFor(atRevision, atSource, atDestination, t).value)
  {
  }

  /** Heads alone never pass for both the old and the new state, except where there is nothing to transfer. */
  lemma OldAndNewApart(t: Transfer, source: Option<Head>, destination: Option<Head>)
    ensures (exists a, b :: Classify(t, a, source, destination) == ExactOld &&
                            Classify(t, b, source, destination) == ExactNew(t.kind))
            <==> t.proof.None? && source.None? && destination.None?
  {
    if t.proof.None? && source.None? && destination.None? {
      assert Classify(t, ExactOld, source, destination) == ExactOld;
      assert Classify(t, ExactNew(t.kind), source, destination) == ExactNew(t.kind);
    }
  }

  /** A transfer built while commits may go on, and then committed, moves exactly its proof from the source to the
      destination head; the state before was exactly old, the state after is exactly new. */
  lemma TransferLands(seen: seq<Home>, t: Transfer, h: Home, o: Owner)
    requires |seen| == 9 && Formed(t)
    requires BuildAcceptance(seen, t).Ok? && BuildAcceptance(seen, t).value.Execute?
    requires Commit(h, BuildAcceptance(seen, t).value.command).Ok?
    requires t.source in h.heads ==> h.heads[t.source].owner == t.source
    ensures var h' := Commit(h, BuildAcceptance(seen, t).value.command).value;
            && StatusAt(h, t) == ExactOld && StatusAt(h', t) == ExactNew(t.kind)
            && (o != t.source && o != t.destination ==> HeadOf(h', o) == HeadOf(h, o))
            && HeadOf(h', t.source).None?
            && (t.proof.Some? ==> HeadOf(h', t.destination) == Some(Head(t.destination, t.proof.value, INITIAL)))
            && BuildAcceptance(seq(9, _ => h'), t) == Ok(AlreadyAccepted(t.kind))
  {
  }

  lemma CommitLands(h: Home, c: Command, o: Owner)
    requires Proper(c) && Commit(h, c).Ok?
    requires c.transfer.source in h.heads ==> h.heads[c.transfer.source].owner == c.transfer.source
    ensures var (h', t) := (Commit(h, c).value, c.transfer);
            && StatusAt(h, t) == ExactOld && StatusAt(h', t) == ExactNew(t.kind)
            && (o != t.source && o != t.destination ==> HeadOf(h', o) == HeadOf(h, o))
            && HeadOf(h', t.source).None?
            && (t.proof.Some? ==> HeadOf(h', t.destination) == Some(Head(t.destination, t.proof.value, INITIAL)))
  {
  }

  // What is built and committed, on the heads and the record alone

  /** The source owns this proof under its own name. */
  predicate Sealed(m: Heads, o: Owner, p: nat)
  {
    o in m && m[o].owner == o && m[o].assets == p
  }

  /** Nothing of the transfer has happened: it is on no record, its proof is with the source and its destination is
      free, or without a proof neither has a head. */
  predicate StillOld(h: Home, t: Transfer)
  {
    && t !in h.collided && t.source !in h.record && t.destination !in h.heads
    && (if t.proof.Some? then Sealed(h.heads, t.source, t.proof.value) else t.source !in h.heads)
  }

  /** The transfer is on record, its proof with the destination and no more with the source. */
  predicate AlreadyNew(h: Home, t: Transfer)
  {
    && t !in h.collided && t.source in h.record && h.record[t.source] == t && t.source !in h.heads
    && (if t.proof.Some? then Sealed(h.heads, t.destination, t.proof.value) else t.destination !in h.heads)
  }

  lemma StatusIff(h: Home, t: Transfer)
    ensures StatusAt(h, t) == ExactOld <==> StillOld(h, t)
    ensures StatusAt(h, t) == ExactNew(t.kind) <==> AlreadyNew(h, t)
    ensures !StillOld(h, t) && !AlreadyNew(h, t) ==> StatusAt(h, t) == Collision
  {
  }

  /** Where every read sees one state, a first acceptance builds a command if and only if it is still old there, and
      that command commits there. */
  lemma AcceptanceBuilt(h: Home, t: Transfer)
    requires Formed(t)
    ensures var r := BuildAcceptance(seq(9, _ => h), t);
            && (r.Ok? && r.value.Execute? <==> StillOld(h, t))
            && (StillOld(h, t) ==> r.value.command.transfer == t && Commit(h, r.value.command).Ok?)
            && (r == Ok(AlreadyAccepted(t.kind)) <==> AlreadyNew(h, t))
            && (!StillOld(h, t) && !AlreadyNew(h, t) ==> r == Err(FirstAcceptanceCollision))
  {
    StatusIff(h, t);
  }

  /** The command of a transfer, whatever its three reads see: built exactly where its proof was with the source and its
      destination was free, and refused for the first of these that failed. */
  lemma CommandAnswer(atRevision: Home, atSource: Home, atDestination: Home, t: Transfer)
    ensures var (r, m) := (CommandFor(atRevision, atSource, atDestination, t), atSource.heads);
            && (r.Ok? <==>
                  t.proof.None? || (Sealed(m, t.source, t.proof.value) && t.destination !in atDestination.heads))
            && (r == Err(MissingOwnerHead(t.source)) <==> t.proof.Some? && t.source !in m)
            && (r == Err(OwnerHeadMismatch) <==>
                  t.proof.Some? && t.source in m && !Sealed(m, t.source, t.proof.value))
            && (r == Err(DestinationOwnerCollision(t.destination)) <==>
                  t.proof.Some? && Sealed(m, t.source, t.proof.value) && t.destination in atDestination.heads)
            && (r.Ok? ==> r.value.revision == atRevision.revision && r.value.transfer == t)
            && (r.Ok? ==> r.value.expected == if t.proof.Some? then Some(m[t.source]) else None)
  {
  }

  /** A promotion where every read sees one state: its status, and its command, which commits there if and only if the
      promotion is still prior. */
  lemma PromotionBuilt(h: Home, t: Transfer)
    requires Formed(t)
    ensures PromotionStatus(seq(5, _ => h), t) == Ok(ExactOld) <==> StillOld(h, t)
    ensures PromotionStatus(seq(5, _ => h), t) == Ok(ExactNew(t.kind)) <==> AlreadyNew(h, t)
    ensures CommandFor(h, h, h, t).Ok? && Commit(h, CommandFor(h, h, h, t).value).Ok? <==> StillOld(h, t)
  {
    StatusIff(h, t);
    CommandAnswer(h, h, h, t);
  }

  /** A command commits if and only if the home has not changed since its revision, its transfer is on no record and the
      two heads are as it expects. */
  lemma CommitAnswer(h: Home, c: Command)
    ensures Commit(h, c).Ok? <==>
              && h.revision == c.revision && c.transfer !in h.collided && c.transfer.source !in h.record
              && c.transfer.destination !in h.heads
              && (match c.expected
                  case None => c.transfer.source !in h.heads
                  case Some(e) => c.transfer.source in h.heads && h.heads[c.transfer.source].assets == e.assets &&
                                  h.heads[c.transfer.source].revision == e.revision)
    ensures h.revision != c.revision ==> Commit(h, c) == Err(RevisionConflict)
    ensures h.revision == c.revision && (c.transfer in h.collided || c.transfer.source in h.record) ==>
              Commit(h, c) == Err(SyndicRejected)
    ensures h.revision == c.revision && c.transfer !in h.collided && c.transfer.source !in h.record ==>
              Commit(h, c).Ok? || Commit(h, c) == Err(OwnerHeadMismatch)
  {
  }

  /** Reads that disagree are reported and decide nothing. */
  lemma ReadsDisagree(seen: seq<Home>, t: Transfer)
    requires |seen| == 9
    ensures var agree := StatusOf(seen[0], t) == StatusOf(seen[3], t) &&
                         At(seen[1].heads, t.source) == At(seen[4].heads, t.source) &&
                         At(seen[2].heads, t.destination) == At(seen[5].heads, t.destination);
            FirstStatus(seen, t) == Err(ConcurrentReconciliation) <==> !agree
    ensures var agree := At(seen[0].heads, t.source) == At(seen[3].heads, t.source) &&
                         At(seen[1].heads, t.destination) == At(seen[4].heads, t.destination);
            PromotionStatus(seen, t) == Err(ConcurrentReconciliation) <==> !agree
  {
  }

  // Runs: every commit that writes an owner head

  /** A publication seals a draft with a set or clears its head, a historical selection gives a draft the set of a turn
      item, a transfer commits, and anything else may take a transfer out of its old or new state for good. */
  datatype Op =
    | SealOp(draft: nat, proof: nat) | ClearOp(draft: nat) | SelectOp(draft: nat, item: nat)
    | CommitOp(command: Command) | CollideOp(transfer: Transfer) | OtherOp

  predicate Owns(m: Heads, o: Owner, p: nat)
  {
    o in m && m[o].assets == p
  }

  predicate Enabled(op: Op)
  {
    op.CommitOp? ==> Proper(op.command)
  }

  /** A publication replaces the set of a draft only by another one, at the next revision of the head. */
  predicate Sealable(m: Heads, o: Owner, p: nat)
  {
    !Owns(m, o, p) && (o in m ==> m[o].revision < U64_MAX)
  }

  predicate Selectable(m: Heads, draft: nat, item: nat)
  {
    CurrentDraft(draft) !in m && SubmittedTurnItem(item) in m
  }

  /** The heads after a commit that no other domain refuses. */
  function Write(m: Heads, op: Op): (m': Heads)
  {
    match op
    case SealOp(draft, p) =>
      var o := CurrentDraft(draft);
      if Sealable(m, o, p) then m[o := Head(o, p, if o in m then m[o].revision + 1 else INITIAL)] else m
    case ClearOp(draft) => m - {CurrentDraft(draft)}
    case SelectOp(draft, item) =>
      if !Selectable(m, draft, item) then m
      else m[CurrentDraft(draft) := Head(CurrentDraft(draft), m[SubmittedTurnItem(item)].assets, INITIAL)]
    case CommitOp(c) => if CommitHeads(m, c).Some? then CommitHeads(m, c).value else m
    case _ => m
  }

  function Next(h: Home, op: Op): (h': Home)
  {
    if op.CommitOp? then if Commit(h, op.command).Ok? then Commit(h, op.command).value else h
    else
      h.(revision := h.revision + 1, heads := Write(h.heads, op),
         collided := if op.CollideOp? then h.collided + {op.transfer} else h.collided)
  }

  predicate Own(h: Home, o: Owner)
  {
    o in h.heads ==> h.heads[o].owner == o
  }

  ghost predicate Inv(h: Home)
  {
    forall o :: Own(h, o)
  }

  ghost predicate Run(hs: seq<Home>, ops: seq<Op>)
  {
    && |hs| == |ops| + 1 && hs[0] == Home(0, map[], map[], {})
    && (forall i :: 0 <= i < |ops| ==> Enabled(ops[i]) && hs[i + 1] == Next(hs[i], ops[i]))
  }

  /** Every head is filed under its own owner. */
  lemma {:induction false} RunInv(hs: seq<Home>, ops: seq<Op>, i: nat)
    requires Run(hs, ops) && i < |hs|
    ensures Inv(hs[i])
  {
    if i > 0 {
      RunInv(hs, ops, i - 1);
      forall o
        ensures Own(hs[i], o)
      {
        assert Own(hs[i - 1], o);
      }
    }
  }

  /** A head changes only by a publication of its draft, to another set at the next revision; a new head has the first
      revision. */
  lemma HeadRevisions(hs: seq<Home>, ops: seq<Op>, i: nat, o: Owner)
    requires Run(hs, ops) && i < |ops| && o in hs[i + 1].heads
    ensures var m, m' := hs[i].heads, hs[i + 1].heads;
            if o !in m then m'[o].revision == 1
            else m'[o] == m[o] || (ops[i].SealOp? && o == CurrentDraft(ops[i].draft) && m'[o].assets != m[o].assets &&
                                   m'[o].assets == ops[i].proof && m'[o].revision == m[o].revision + 1)
  {
  }

  // How many owners a proof has

  function Owners(m: Heads, p: nat): (owners: set<Owner>)
  {
    set o | o in m && m[o].assets == p
  }

  /** A step that gives the proof to one more draft. */
  predicate Gains(m: Heads, op: Op, p: nat)
  {
    (op.SealOp? && op.proof == p && Sealable(m, CurrentDraft(op.draft), p)) ||
    (op.SelectOp? && Selectable(m, op.draft, op.item) && Owns(m, SubmittedTurnItem(op.item), p))
  }

  /** A step that takes the proof from a draft. */
  predicate Loses(m: Heads, op: Op, p: nat)
  {
    (op.ClearOp? && Owns(m, CurrentDraft(op.draft), p)) ||
    (op.SealOp? && Owns(m, CurrentDraft(op.draft), p) && Sealable(m, CurrentDraft(op.draft), op.proof))
  }

  /** The gains of the proof in steps `i..j`. */
  function GainsOf(hs: seq<Home>, ops: seq<Op>, i: nat, j: nat, p: nat): (n: nat)
    requires i <= j <= |ops| < |hs|
  {
    if i == j then 0 else GainsOf(hs, ops, i, j - 1, p) + One(Gains(hs[j - 1].heads, ops[j - 1], p))
  }

  /** The losses of the proof in steps `i..j`. */
  function LossesOf(hs: seq<Home>, ops: seq<Op>, i: nat, j: nat, p: nat): (n: nat)
    requires i <= j <= |ops| < |hs|
  {
    if i == j then 0 else LossesOf(hs, ops, i, j - 1, p) + One(Loses(hs[j - 1].heads, ops[j - 1], p))
  }

  /** A draft's head takes the place of what the draft had. */
  lemma PutOwners(m: Heads, head: Head, p: nat)
    ensures |Owners(m[head.owner := head], p)| + One(Owns(m, head.owner, p)) == |Owners(m, p)| + One(head.assets == p)
  {
    var o, after := head.owner, Owners(m[head.owner := head], p);
    if head.assets == p {
      assert after == Owners(m, p) + {o};
    } else {
      assert after == Owners(m, p) - {o};
    }
  }

  lemma RemoveOwners(m: Heads, o: Owner, p: nat)
    ensures |Owners(m - {o}, p)| + One(Owns(m, o, p)) == |Owners(m, p)|
  {
    assert Owners(m - {o}, p) == Owners(m, p) - {o};
  }

  /** A transfer moves its proof: no proof has more or fewer owners after it. */
  lemma CommitOwners(m: Heads, c: Command, p: nat)
    requires Proper(c) && CommitHeads(m, c).Some?
    ensures |Owners(CommitHeads(m, c).value, p)| == |Owners(m, p)|
  {
    var t := c.transfer;
    if c.expected.Some? {
      RemoveOwners(m, t.source, p);
      PutOwners(m - {t.source}, Head(t.destination, t.proof.value, INITIAL), p);
    }
  }

  lemma OwnersStep(h: Home, op: Op, p: nat)
    requires Enabled(op)
    ensures |Owners(Next(h, op).heads, p)| + One(Loses(h.heads, op, p)) ==
            |Owners(h.heads, p)| + One(Gains(h.heads, op, p))
  {
    match op
    case SealOp(draft, q) =>
      var o := CurrentDraft(draft);
      PutOwners(h.heads, Head(o, q, if o in h.heads then h.heads[o].revision + 1 else INITIAL), p);
    case ClearOp(draft) => RemoveOwners(h.heads, CurrentDraft(draft), p);
    case SelectOp(draft, item) =>
      if Selectable(h.heads, draft, item) {
        PutOwners(h.heads, Head(CurrentDraft(draft), h.heads[SubmittedTurnItem(item)].assets, INITIAL), p);
      }
    case CommitOp(c) =>
      if Commit(h, c).Ok? {
        CommitOwners(h.heads, c, p);
      }
    case _ =>
  }

  /** Over any run the number of owners of a proof changes by exactly the drafts that gained it and the drafts that lost
      it; so a proof with one owner has one owner again if and only if these balance. */
  lemma {:induction false} OwnersBalance(hs: seq<Home>, ops: seq<Op>, i: nat, j: nat, p: nat)
    requires Run(hs, ops) && i <= j < |hs|
    ensures |Owners(hs[j].heads, p)| + LossesOf(hs, ops, i, j, p) ==
            |Owners(hs[i].heads, p)| + GainsOf(hs, ops, i, j, p)
    ensures |Owners(hs[i].heads, p)| == 1 ==>
              (|Owners(hs[j].heads, p)| == 1 <==> GainsOf(hs, ops, i, j, p) == LossesOf(hs, ops, i, j, p))
  {
    if i < j {
      OwnersBalance(hs, ops, i, j - 1, p);
      OwnersStep(hs[j - 1], ops[j - 1], p);
    }
  }

  lemma Extend(hs: seq<Home>, ops: seq<Op>, op: Op, h: Home) returns (hs': seq<Home>, ops': seq<Op>)
    requires Run(hs, ops) && Enabled(op) && h == Next(hs[|hs| - 1], op)
    ensures Run(hs', ops') && hs' == hs + [h]
  {
    hs', ops' := hs + [h], ops + [op];
  }

  /** A draft sealed with set 7 and submitted while idle. */
  lemma Submitted() returns (hs: seq<Home>, ops: seq<Op>)
    ensures Run(hs, ops)
    ensures hs[|hs| - 1] ==
            Home(2, map[SubmittedTurnItem(0) := Head(SubmittedTurnItem(0), 7, INITIAL)],
                 map[CurrentDraft(0) := FirstAcceptance(0, 0, true, 0, Some(7))], {})
  {
    var sealed := Head(CurrentDraft(0), 7, INITIAL);
    hs, ops := [Home(0, map[], map[], {})], [];
    hs, ops := Extend(hs, ops, SealOp(0, 7), Home(1, map[CurrentDraft(0) := sealed], map[], {}));
    var c := Command(1, FirstAcceptance(0, 0, true, 0, Some(7)), Some(sealed));
    hs, ops := Extend(hs, ops, CommitOp(c),
                      Home(2, map[SubmittedTurnItem(0) := Head(SubmittedTurnItem(0), 7, INITIAL)],
                           map[CurrentDraft(0) := c.transfer], {}));
  }

  /** A historical selection gives a proof a second owner, a draft, while its turn item keeps it. */
  lemma TwoOwners() returns (hs: seq<Home>, ops: seq<Op>)
    ensures Run(hs, ops) && Owners(hs[|hs| - 1].heads, 7) == {SubmittedTurnItem(0), CurrentDraft(1)}
  {
    hs, ops := Submitted();
    hs, ops := Extend(hs, ops, SelectOp(1, 0), Next(hs[|hs| - 1], SelectOp(1, 0)));
  }

  /** A publication that clears a draft leaves its proof without owner. */
  lemma NoOwner() returns (hs: seq<Home>, ops: seq<Op>)
    ensures Run(hs, ops) && |hs| == 3 && Owners(hs[1].heads, 7) == {CurrentDraft(0)} && Owners(hs[2].heads, 7) == {}
  {
    hs, ops := [Home(0, map[], map[], {})], [];
    hs, ops := Extend(hs, ops, SealOp(0, 7), Next(hs[0], SealOp(0, 7)));
    hs, ops := Extend(hs, ops, ClearOp(0), Next(hs[1], ClearOp(0)));
  }

  /** Where the step takes the proof that this owner has: a transfer moves it on, anything else leaves it. */
  function Moved(h: Home, op: Op, o: Owner): (o': Owner)
  {
    if op.CommitOp? && Commit(h, op.command).Ok? && op.command.transfer.source == o && op.command.expected.Some?
    then op.command.transfer.destination else o
  }

  lemma OwnerStep(h: Home, op: Op, o: Owner, p: nat)
    requires Enabled(op) && Owns(h.heads, o, p) && !(Loses(h.heads, op, p) && o == CurrentDraft(op.draft))
    ensures Owns(Next(h, op).heads, Moved(h, op, o), p)
    ensures Moved(h, op, o) == o || Rank(o) < Rank(Moved(h, op, o))
  {
  }

  /** A proof that an owner has stays with it or is moved on, only forward from draft over accepted input to turn item,
      unless that draft itself loses it; past the draft nothing takes it away. */
  lemma {:induction false} OwnerForward(hs: seq<Home>, ops: seq<Op>, i: nat, j: nat, o: Owner, p: nat)
    returns (o': Owner)
    requires Run(hs, ops) && i <= j < |hs| && Owns(hs[i].heads, o, p)
    requires forall k :: i <= k < j ==> !(Loses(hs[k].heads, ops[k], p) && o == CurrentDraft(ops[k].draft))
    ensures Owns(hs[j].heads, o', p) && (o' == o || Rank(o) < Rank(o'))
  {
    if i == j {
      o' := o;
    } else {
      var before := OwnerForward(hs, ops, i, j - 1, o, p);
      OwnerStep(hs[j - 1], ops[j - 1], before, p);
      o' := Moved(hs[j - 1], ops[j - 1], before);
    }
  }

  // What the heads alone say of a transfer that is committed again

  /** A run of the asset domain, whatever the other domain admits or refuses. */
  ghost predicate HeadsRun(ms: seq<Heads>, ops: seq<Op>)
  {
    && |ms| == |ops| + 1
    && (forall i :: 0 <= i < |ops| ==> Enabled(ops[i]) && (ms[i + 1] == Write(ms[i], ops[i]) || ms[i + 1] == ms[i]))
  }

  /** The heads of every run are a run of the asset domain. */
  lemma RunHeads(hs: seq<Home>, ops: seq<Op>, ms: seq<Heads>)
    requires Run(hs, ops) && |ms| == |hs| && forall i :: 0 <= i < |hs| ==> ms[i] == hs[i].heads
    ensures HeadsRun(ms, ops)
  {
  }

  /** A step that gives the proof to this draft. */
  predicate Regains(m: Heads, op: Op, o: Owner, p: nat)
  {
    Gains(m, op, p) && o == CurrentDraft(op.draft)
  }

  lemma {:induction false} ItemKept(ms: seq<Heads>, ops: seq<Op>, i: nat, j: nat, o: Owner)
    requires HeadsRun(ms, ops) && i <= j < |ms| && o.SubmittedTurnItem? && o in ms[i]
    ensures o in ms[j] && ms[j][o] == ms[i][o]
  {
    if i < j {
      ItemKept(ms, ops, i, j - 1, o);
    }
  }

  lemma {:induction false} DraftWithout(ms: seq<Heads>, ops: seq<Op>, i: nat, j: nat, o: Owner, p: nat)
    requires HeadsRun(ms, ops) && i <= j < |ms| && o.CurrentDraft? && !Owns(ms[i], o, p)
    requires forall k :: i <= k < j ==> !Regains(ms[k], ops[k], o, p)
    ensures !Owns(ms[j], o, p)
  {
    if i < j {
      DraftWithout(ms, ops, i, j - 1, o, p);
    }
  }

  /** The heads alone refuse a transfer of a proof that was applied before, whatever the other domain answers, unless
      its destination is an accepted input and its own draft has since been given the proof again. */
  lemma AppliedOnce(ms: seq<Heads>, ops: seq<Op>, i: nat, j: nat, c: Command)
    requires HeadsRun(ms, ops) && i < j < |ms| && ops[i].CommitOp? && Proper(c) && c.transfer.proof.Some?
    requires ops[i].command.transfer == c.transfer
    requires CommitHeads(ms[i], ops[i].command) == Some(ms[i + 1])
    requires CommitHeads(ms[j], c).Some?
    ensures c.transfer.destination.AcceptedInput?
    ensures exists k :: i < k < j && Regains(ms[k], ops[k], c.transfer.source, c.transfer.proof.value)
  {
    var t := c.transfer;
    if t.destination.SubmittedTurnItem? {
      ItemKept(ms, ops, i + 1, j, t.destination);
    } else if forall k :: i < k < j ==> !Regains(ms[k], ops[k], t.source, t.proof.value) {
      DraftWithout(ms, ops, i + 1, j, t.source, t.proof.value);
    }
  }

  /** Some command of the transfer can be applied if and only if its source has the proof and its destination is
      free. */
  lemma ApplicableIff(m: Heads, t: Transfer)
    requires Formed(t) && t.proof.Some?
    ensures (exists c :: Proper(c) && c.transfer == t && CommitHeads(m, c).Some?)
            <==> Owns(m, t.source, t.proof.value) && t.destination !in m
  {
    if Owns(m, t.source, t.proof.value) && t.destination !in m {
      var c := Command(0, t, Some(m[t.source]));
      assert Proper(c) && c.transfer == t && CommitHeads(m, c).Some?;
    }
  }

  /** An acceptance that the heads alone admit twice: accepted, promoted, and selected back into the same draft. */
  lemma AppliedTwice() returns (ms: seq<Heads>, ops: seq<Op>, c: Command)
    ensures HeadsRun(ms, ops) && |ops| == 5 && ops[1] == ops[4] == CommitOp(c)
    ensures CommitHeads(ms[1], c) == Some(ms[2]) && CommitHeads(ms[4], c) == Some(ms[5])
  {
    var draft := Head(CurrentDraft(0), 7, INITIAL);
    var accepted := Head(AcceptedInput(0), 7, INITIAL);
    var item := Head(SubmittedTurnItem(0), 7, INITIAL);
    c := Command(1, FirstAcceptance(0, 0, false, 0, Some(7)), Some(draft));
    var promote := Command(2, Promotion(1, 0, 0, Some(7)), Some(accepted));
    ops := [SealOp(0, 7), CommitOp(c), CommitOp(promote), SelectOp(0, 0), CommitOp(c)];
    ms := [map[], map[draft.owner := draft], map[accepted.owner := accepted], map[item.owner := item],
           map[item.owner := item, draft.owner := draft], map[item.owner := item, accepted.owner := accepted]];
    assert CommitHeads(ms[1], c).value == ms[2] && CommitHeads(ms[4], c).value == ms[5];
  }

  // What the readers make of a home that changes under them

  ghost predicate Ascending(at: seq<nat>)
  {
    forall a, b :: 0 <= a < b < |at| ==> at[a] <= at[b]
  }

  /** The states that reads at the given moments see. */
  function Sampled(hs: seq<Home>, at: seq<nat>): (seen: seq<Home>)
    requires forall a :: 0 <= a < |at| ==> at[a] < |hs|
  {
    seq(|at|, a requires 0 <= a < |at| => hs[at[a]])
  }

  /** Collisions and records are for good. */
  lemma {:induction false} RecordsStay(hs: seq<Home>, ops: seq<Op>, i: nat, j: nat, t: Transfer)
    requires Run(hs, ops) && i <= j < |hs|
    ensures t in hs[i].collided ==> t in hs[j].collided
    ensures t.source in hs[i].record ==> t.source in hs[j].record && hs[j].record[t.source] == hs[i].record[t.source]
  {
    if i < j {
      RecordsStay(hs, ops, i, j - 1, t);
    }
  }

  /** A transfer that is old was old before, and one that is new stays new until it collides. */
  lemma StatusForward(hs: seq<Home>, ops: seq<Op>, i: nat, j: nat, t: Transfer)
    requires Run(hs, ops) && i <= j < |hs|
    ensures StatusOf(hs[j], t) == ExactOld ==> StatusOf(hs[i], t) == ExactOld
    ensures StatusOf(hs[i], t) == ExactNew(t.kind) && t !in hs[j].collided ==> StatusOf(hs[j], t) == ExactNew(t.kind)
  {
    RecordsStay(hs, ops, i, j, t);
  }

  lemma {:induction false} ItemStays(hs: seq<Home>, ops: seq<Op>, i: nat, j: nat, o: Owner)
    requires Run(hs, ops) && i <= j < |hs| && o.SubmittedTurnItem? && o in hs[i].heads
    ensures HeadOf(hs[j], o) == HeadOf(hs[i], o)
  {
    if i < j {
      ItemStays(hs, ops, i, j - 1, o);
      ItemStep(hs[j - 1], ops[j - 1], o);
    }
  }

  lemma ItemStep(h: Home, op: Op, o: Owner)
    requires Enabled(op) && o.SubmittedTurnItem? && o in h.heads
    ensures HeadOf(Next(h, op), o) == HeadOf(h, o)
  {
  }

  /** The head of an accepted input that has gone on to its turn item, or of one whose draft has been accepted. */
  lemma AcceptedStep(h: Home, op: Op, d: nat)
    requires Enabled(op)
    ensures AcceptedInput(d) in h.record ==>
              (AcceptedInput(d) in h.heads ==> HeadOf(Next(h, op), AcceptedInput(d)) == HeadOf(h, AcceptedInput(d)))
    ensures CurrentDraft(d) in h.record ==>
              (AcceptedInput(d) in Next(h, op).heads ==>
                 HeadOf(Next(h, op), AcceptedInput(d)) == HeadOf(h, AcceptedInput(d)))
    ensures CurrentDraft(d) !in Next(h, op).record && AcceptedInput(d) !in h.heads ==>
              AcceptedInput(d) !in Next(h, op).heads
  {
  }

  /** An accepted input has a head only once its draft was accepted. */
  lemma {:induction false} AcceptedAfterDraft(hs: seq<Home>, ops: seq<Op>, i: nat, d: nat)
    requires Run(hs, ops) && i < |hs| && CurrentDraft(d) !in hs[i].record
    ensures AcceptedInput(d) !in hs[i].heads
  {
    if i > 0 {
      RecordsStay(hs, ops, i - 1, i, FirstAcceptance(0, d, false, 0, None));
      AcceptedAfterDraft(hs, ops, i - 1, d);
      AcceptedStep(hs[i - 1], ops[i - 1], d);
    }
  }

  /** Once its draft was accepted, a head of the accepted input was there, the same, all the time. */
  lemma {:induction false} AcceptedSince(hs: seq<Home>, ops: seq<Op>, i: nat, j: nat, d: nat)
    requires Run(hs, ops) && i <= j < |hs| && CurrentDraft(d) in hs[i].record && AcceptedInput(d) in hs[j].heads
    ensures HeadOf(hs[i], AcceptedInput(d)) == HeadOf(hs[j], AcceptedInput(d))
  {
    if i < j {
      RecordsStay(hs, ops, i, j - 1, FirstAcceptance(0, d, false, 0, None));
      AcceptedStep(hs[j - 1], ops[j - 1], d);
      AcceptedSince(hs, ops, i, j - 1, d);
    }
  }

  /** Once it was promoted, an accepted input keeps a head it has. */
  lemma {:induction false} PromotedKeeps(hs: seq<Home>, ops: seq<Op>, i: nat, j: nat, d: nat)
    requires Run(hs, ops) && i <= j < |hs| && AcceptedInput(d) in hs[i].record && AcceptedInput(d) in hs[i].heads
    ensures AcceptedInput(d) in hs[j].heads
  {
    if i < j {
      PromotedKeeps(hs, ops, i, j - 1, d);
      RecordsStay(hs, ops, i, j - 1, Promotion(0, d, 0, None));
      AcceptedStep(hs[j - 1], ops[j - 1], d);
    }
  }

  predicate Recorded(h: Home, t: Transfer)
  {
    t.source in h.record && h.record[t.source] == t
  }

  lemma RecordedStep(h: Home, op: Op, t: Transfer)
    requires Enabled(op) && Formed(t) && t.source.CurrentDraft? && Recorded(Next(h, op), t)
    requires !Recorded(h, t) ==> t.source !in h.record && (t.destination.AcceptedInput? ==> t.destination !in h.heads)
    requires Recorded(h, t) ==> Landed(h, t)
    ensures Landed(Next(h, op), t)
  {
  }

  /** An acceptance without proof never gave its accepted input a head, and one with proof left its item one. */
  predicate Landed(h: Home, t: Transfer)
  {
    && (t.proof.None? && t.destination.AcceptedInput? ==> t.destination !in h.heads)
    && (t.proof.Some? && t.destination.SubmittedTurnItem? ==> t.destination in h.heads)
  }

  lemma {:induction false} RecordedLanded(hs: seq<Home>, ops: seq<Op>, i: nat, t: Transfer)
    requires Run(hs, ops) && i < |hs| && Formed(t) && t.source.CurrentDraft? && Recorded(hs[i], t)
    ensures Landed(hs[i], t)
  {
    if i > 0 {
      if Recorded(hs[i - 1], t) {
        RecordedLanded(hs, ops, i - 1, t);
      } else {
        RecordsStay(hs, ops, i - 1, i, t);
        AcceptedAfterDraft(hs, ops, i - 1, t.source.id);
      }
      RecordedStep(hs[i - 1], ops[i - 1], t);
    }
  }

  lemma FirstOldReal(hs: seq<Home>, ops: seq<Op>, at: seq<nat>, t: Transfer)
    requires Run(hs, ops) && |at| == 6 && Ascending(at) && (forall a :: 0 <= a < 6 ==> at[a] < |hs|)
    requires Formed(t) && t.source.CurrentDraft? && FirstStatus(Sampled(hs, at), t) == Ok(ExactOld)
    ensures StatusAt(hs[at[1]], t) == ExactOld
  {
    assert at[1] <= at[3] && at[1] <= at[5];
    StatusForward(hs, ops, at[1], at[3], t);
    if t.destination.AcceptedInput? {
      AcceptedAfterDraft(hs, ops, at[1], t.source.id);
    } else if t.destination in hs[at[1]].heads {
      ItemStays(hs, ops, at[1], at[5], t.destination);
    }
  }

  lemma FirstNewReal(hs: seq<Home>, ops: seq<Op>, at: seq<nat>, t: Transfer)
    requires Run(hs, ops) && |at| == 6 && Ascending(at) && (forall a :: 0 <= a < 6 ==> at[a] < |hs|)
    requires Formed(t) && t.source.CurrentDraft? && FirstStatus(Sampled(hs, at), t) == Ok(ExactNew(t.kind))
    ensures StatusAt(hs[at[1]], t) == ExactNew(t.kind)
  {
    assert at[0] <= at[1] <= at[3] && at[1] <= at[5];
    RecordsStay(hs, ops, at[1], at[3], t);
    StatusForward(hs, ops, at[0], at[1], t);
    RecordedLanded(hs, ops, at[1], t);
    if t.destination.AcceptedInput? {
      if t.destination in hs[at[5]].heads {
        AcceptedSince(hs, ops, at[1], at[5], t.source.id);
      }
    } else if t.destination in hs[at[1]].heads {
      ItemStays(hs, ops, at[1], at[5], t.destination);
    }
  }

  /** Whatever is committed between its six reads, a first acceptance reported as old or as new was just that when its
      source was first read. */
  lemma FirstStatusReal(hs: seq<Home>, ops: seq<Op>, at: seq<nat>, t: Transfer)
    requires Run(hs, ops) && |at| == 6 && Ascending(at) && (forall a :: 0 <= a < 6 ==> at[a] < |hs|)
    requires Formed(t) && t.source.CurrentDraft?
    ensures var r := FirstStatus(Sampled(hs, at), t);
            r == Ok(ExactOld) || r == Ok(ExactNew(t.kind)) ==> StatusAt(hs[at[1]], t) == r.value
  {
    if FirstStatus(Sampled(hs, at), t) == Ok(ExactOld) {
      FirstOldReal(hs, ops, at, t);
    } else if FirstStatus(Sampled(hs, at), t) == Ok(ExactNew(t.kind)) {
      FirstNewReal(hs, ops, at, t);
    }
  }

  /** Whatever is committed between its five reads, a promotion reported as prior was prior when the reads began, and
      one reported as exact was exact when its status was read. */
  lemma PromotionStatusReal(hs: seq<Home>, ops: seq<Op>, at: seq<nat>, t: Transfer)
    requires Run(hs, ops) && |at| == 5 && Ascending(at) && (forall a :: 0 <= a < 5 ==> at[a] < |hs|)
    requires Formed(t) && t.source.AcceptedInput?
    ensures PromotionStatus(Sampled(hs, at), t) == Ok(ExactOld) ==> StatusAt(hs[at[0]], t) == ExactOld
    ensures PromotionStatus(Sampled(hs, at), t) == Ok(ExactNew(t.kind)) ==> StatusAt(hs[at[2]], t) == ExactNew(t.kind)
  {
    assert at[0] <= at[2] <= at[3] && at[0] <= at[4] && at[1] <= at[2] <= at[4];
    StatusForward(hs, ops, at[0], at[2], t);
    if t.destination in hs[at[0]].heads {
      ItemStays(hs, ops, at[0], at[4], t.destination);
    }
    if PromotionStatus(Sampled(hs, at), t) == Ok(ExactNew(t.kind)) {
      PromotionNewReal(hs, ops, at, t);
    }
  }

  lemma PromotionNewReal(hs: seq<Home>, ops: seq<Op>, at: seq<nat>, t: Transfer)
    requires Run(hs, ops) && |at| == 5 && Ascending(at) && (forall a :: 0 <= a < 5 ==> at[a] < |hs|)
    requires Formed(t) && t.source.AcceptedInput? && PromotionStatus(Sampled(hs, at), t) == Ok(ExactNew(t.kind))
    ensures StatusAt(hs[at[2]], t) == ExactNew(t.kind)
  {
    assert at[1] <= at[2] <= at[3] && at[2] <= at[4];
    if t.source in hs[at[2]].heads {
      PromotedKeeps(hs, ops, at[2], at[3], t.source.id);
    }
    if t.destination in hs[at[1]].heads {
      ItemStays(hs, ops, at[1], at[2], t.destination);
    }
    if t.destination in hs[at[2]].heads {
      ItemStays(hs, ops, at[2], at[4], t.destination);
    }
  }

  // The same of the heads alone, whatever the other domain answers

  function HeadsOf(hs: seq<Home>): (ms: seq<Heads>)
  {
    seq(|hs|, i requires 0 <= i < |hs| => hs[i].heads)
  }

  /** Homes whose heads are a run of the asset domain, and in which a status that is left is not returned to. */
  ghost predicate Loose(hs: seq<Home>, ops: seq<Op>, t: Transfer)
  {
    && HeadsRun(HeadsOf(hs), ops)
    && (forall i, j :: 0 <= i <= j < |hs| && StatusOf(hs[j], t) == ExactOld ==> StatusOf(hs[i], t) == ExactOld)
    && (forall i, j :: 0 <= i <= j < |hs| && StatusOf(hs[i], t) == ExactNew(t.kind) ==>
          StatusOf(hs[j], t) == ExactNew(t.kind))
  }

  /** No transfer takes its proof from this owner in steps `i..j`. */
  ghost predicate NotMovedOn(ms: seq<Heads>, ops: seq<Op>, i: nat, j: nat, o: Owner)
    requires i <= j <= |ops| < |ms|
  {
    forall k :: i <= k < j && ops[k].CommitOp? && ms[k + 1] != ms[k] ==> ops[k].command.transfer.source != o
  }

  lemma {:induction false} HeadStays(ms: seq<Heads>, ops: seq<Op>, i: nat, j: nat, o: Owner)
    requires HeadsRun(ms, ops) && i <= j < |ms| && !o.CurrentDraft? && o in ms[i]
    requires o.SubmittedTurnItem? || NotMovedOn(ms, ops, i, j, o)
    ensures At(ms[j], o) == At(ms[i], o)
  {
    if i < j {
      HeadStays(ms, ops, i, j - 1, o);
    }
  }

  /** Even if the other domain admitted a draft again and again, a report about an idle acceptance, or about one whose
      accepted input does not go on to its turn item between the reads, was true at the first or the second read of its
      source. */
  lemma FirstStatusLoose(hs: seq<Home>, ops: seq<Op>, at: seq<nat>, t: Transfer)
    requires |at| == 6 && Ascending(at) && (forall a :: 0 <= a < 6 ==> at[a] < |hs|) && Loose(hs, ops, t) && Formed(t)
    requires t.destination.SubmittedTurnItem? || NotMovedOn(HeadsOf(hs), ops, at[0], at[5], t.destination)
    ensures FirstStatus(Sampled(hs, at), t) == Ok(ExactOld) ==> StatusAt(hs[at[1]], t) == ExactOld
    ensures FirstStatus(Sampled(hs, at), t) == Ok(ExactNew(t.kind)) ==> StatusAt(hs[at[4]], t) == ExactNew(t.kind)
  {
    assert at[0] <= at[1] <= at[2] <= at[4] <= at[5] && at[1] <= at[3] && at[0] <= at[4];
    var ms := HeadsOf(hs);
    if t.destination in ms[at[1]] {
      HeadStays(ms, ops, at[1], at[2], t.destination);
    }
    if t.destination in ms[at[2]] {
      HeadStays(ms, ops, at[2], at[4], t.destination);
    }
    if t.destination in ms[at[4]] {
      HeadStays(ms, ops, at[4], at[5], t.destination);
    }
  }

  /** A report about a promotion needs nothing of the other domain but that it does not return to a status. */
  lemma PromotionStatusLoose(hs: seq<Home>, ops: seq<Op>, at: seq<nat>, t: Transfer)
    requires |at| == 5 && Ascending(at) && (forall a :: 0 <= a < 5 ==> at[a] < |hs|) && Loose(hs, ops, t)
    requires Formed(t) && t.source.AcceptedInput?
    ensures PromotionStatus(Sampled(hs, at), t) == Ok(ExactOld) ==> StatusAt(hs[at[0]], t) == ExactOld
    ensures PromotionStatus(Sampled(hs, at), t) == Ok(ExactNew(t.kind)) ==> StatusAt(hs[at[3]], t) == ExactNew(t.kind)
  {
    assert at[0] <= at[2] <= at[3] <= at[4] && at[0] <= at[4] && at[1] <= at[3];
    var ms := HeadsOf(hs);
    if t.destination in ms[at[0]] {
      HeadStays(ms, ops, at[0], at[4], t.destination);
    }
    if t.destination in ms[at[1]] {
      HeadStays(ms, ops, at[1], at[3], t.destination);
    }
    if t.destination in ms[at[3]] {
      HeadStays(ms, ops, at[3], at[4], t.destination);
    }
  }

  /** A home in which the other domain has no record at all. */
  function Bare(m: Heads): (h: Home)
  {
    Home(0, m, map[], {})
  }

  lemma Append(ms: seq<Heads>, ops: seq<Op>, op: Op, m: Heads) returns (ms': seq<Heads>, ops': seq<Op>)
    requires HeadsRun(ms, ops) && Enabled(op) && m == Write(ms[|ms| - 1], op)
    ensures HeadsRun(ms', ops') && ms' == ms + [m]
  {
    ms', ops' := ms + [m], ops + [op];
  }

  /** A draft accepted with one set and sealed with set 7, then with another, while its accepted input is promoted. */
  lemma TornBegin() returns (ms: seq<Heads>, ops: seq<Op>)
    ensures var (d, a, i) := (CurrentDraft(0), AcceptedInput(0), SubmittedTurnItem(1));
            && HeadsRun(ms, ops)
            && ms == [map[], map[d := Head(d, 8, 1)], map[a := Head(a, 8, 1)],
                      map[a := Head(a, 8, 1), d := Head(d, 7, 1)], map[a := Head(a, 8, 1), d := Head(d, 9, 2)],
                      map[i := Head(i, 8, 1), d := Head(d, 9, 2)]]
  {
    var d, a, i := CurrentDraft(0), AcceptedInput(0), SubmittedTurnItem(1);
    ms, ops := [map[]], [];
    ms, ops := Append(ms, ops, SealOp(0, 8), map[d := Head(d, 8, 1)]);
    ms, ops := Append(ms, ops, CommitOp(Command(0, FirstAcceptance(0, 0, false, 0, Some(8)), Some(Head(d, 8, 1)))),
                      map[a := Head(a, 8, 1)]);
    ms, ops := Append(ms, ops, SealOp(0, 7), map[a := Head(a, 8, 1), d := Head(d, 7, 1)]);
    ms, ops := Append(ms, ops, SealOp(0, 9), map[a := Head(a, 8, 1), d := Head(d, 9, 2)]);
    ms, ops := Append(ms, ops, CommitOp(Command(0, Promotion(1, 0, 1, Some(8)), Some(Head(a, 8, 1)))),
                      map[i := Head(i, 8, 1), d := Head(d, 9, 2)]);
  }

  /** The same again: accepted, sealed with set 7 and then with another, promoted. */
  lemma TornHeads() returns (ms: seq<Heads>, ops: seq<Op>)
    ensures var (d, a, i, k) := (CurrentDraft(0), AcceptedInput(0), SubmittedTurnItem(1), SubmittedTurnItem(2));
            && HeadsRun(ms, ops)
            && ms == [map[], map[d := Head(d, 8, 1)], map[a := Head(a, 8, 1)],
                      map[a := Head(a, 8, 1), d := Head(d, 7, 1)], map[a := Head(a, 8, 1), d := Head(d, 9, 2)],
                      map[i := Head(i, 8, 1), d := Head(d, 9, 2)], map[i := Head(i, 8, 1), a := Head(a, 9, 1)],
                      map[i := Head(i, 8, 1), a := Head(a, 9, 1), d := Head(d, 7, 1)],
                      map[i := Head(i, 8, 1), a := Head(a, 9, 1), d := Head(d, 10, 2)],
                      map[i := Head(i, 8, 1), k := Head(k, 9, 1), d := Head(d, 10, 2)]]
  {
    var d, a, i, k := CurrentDraft(0), AcceptedInput(0), SubmittedTurnItem(1), SubmittedTurnItem(2);
    ms, ops := TornBegin();
    ms, ops := Append(ms, ops, CommitOp(Command(0, FirstAcceptance(2, 0, false, 0, Some(9)), Some(Head(d, 9, 2)))),
                      map[i := Head(i, 8, 1), a := Head(a, 9, 1)]);
    ms, ops := Append(ms, ops, SealOp(0, 7), map[i := Head(i, 8, 1), a := Head(a, 9, 1), d := Head(d, 7, 1)]);
    ms, ops := Append(ms, ops, SealOp(0, 10), map[i := Head(i, 8, 1), a := Head(a, 9, 1), d := Head(d, 10, 2)]);
    ms, ops := Append(ms, ops, CommitOp(Command(0, Promotion(3, 0, 2, Some(9)), Some(Head(a, 9, 1)))),
                      map[i := Head(i, 8, 1), k := Head(k, 9, 1), d := Head(d, 10, 2)]);
  }

  /** If the other domain admitted a draft twice, an acceptance could be reported as old though it never was: its draft
      has the set only while the accepted input is taken. */
  lemma FirstStatusTorn() returns (hs: seq<Home>, ops: seq<Op>, t: Transfer)
    ensures Formed(t) && t.source.CurrentDraft? && |hs| == 10 && Loose(hs, ops, t)
    ensures FirstStatus(Sampled(hs, [3, 3, 5, 7, 7, 9]), t) == Ok(ExactOld)
    ensures forall i :: 0 <= i < |hs| ==> StatusAt(hs[i], t) == Collision
  {
    var ms;
    ms, ops := TornHeads();
    t := FirstAcceptance(4, 0, false, 0, Some(7));
    hs := seq(10, i requires 0 <= i < 10 => Bare(ms[i]));
    assert HeadsOf(hs) == ms;
    forall i | 0 <= i < 10
      ensures StatusAt(hs[i], t) == Collision
    {
      assert hs[i] == Bare(ms[i]);
    }
  }
}
