/** The accounting outbox: one file per receipt, written to a temporary name, synced and renamed.
    The directory is modelled with the operations that are visible but not yet durable, and each
    call may fail or be cut off by a crash at any of its steps. */
module Outbox {
  import opened Basics

  datatype Receipt = Receipt(id: string, createdAt: int, body: string)

  predicate SafeChar(c: char) {
    'A' <= c <= 'Z' || 'a' <= c <= 'z' || '0' <= c <= '9' || c == '.' || c == '_' || c == '-'
  }

  predicate SafeId(id: string) {
    1 <= |id| <= 200 && forall i :: 0 <= i < |id| ==> SafeChar(id[i])
  }

  /** A file: the receipt its text parses to, if it is complete, and whether its data is synced. */
  datatype File = File(doc: Option<Receipt>, synced: bool)

  type Dir = map<string, File>

  datatype Op = Put(name: string, file: File) | Move(from: string, to: string, file: File) | Unlink(name: string)

  function Do(dir: Dir, op: Op): Dir {
    match op
    case Put(name, file) => dir[name := file]
    case Move(from, to, file) => (dir - {from})[to := file]
    case Unlink(name) => dir - {name}
  }

  /** What of a directory is durable, and the operations since. */
  datatype Disk = Disk(base: Dir, pending: seq<Op>)

  function DoAll(dir: Dir, ops: seq<Op>): Dir {
    if ops == [] then dir else Do(DoAll(dir, ops[..|ops| - 1]), ops[|ops| - 1])
  }

  function Visible(d: Disk): Dir {
    DoAll(d.base, d.pending)
  }

  function Then(d: Disk, op: Op): Disk {
    d.(pending := d.pending + [op])
  }

  function Synced(d: Disk): Disk {
    Disk(Visible(d), [])
  }

  function FinalName(id: string): string { id + ".json" }

  function TempName(id: string, hex: string): string { "." + id + "." + hex + ".tmp" }

  predicate IsFinal(name: string) { |name| >= 5 && name[|name| - 5..] == ".json" }

  lemma {:induction false} NamesApart(id: string, hex: string)
    ensures IsFinal(FinalName(id)) && !IsFinal(TempName(id, hex))
  {
    var t := TempName(id, hex);
    assert t[|t| - 1] == 'p';
    assert t[|t| - 5..][4] == t[|t| - 1];
  }

  // ----- The three calls -----

  datatype ReadOutcome = Missing | Corrupt | Read(doc: Receipt)

  function ReadOne(dir: Dir, name: string): ReadOutcome {
    if name !in dir then Missing
    else match dir[name].doc
      case None => Corrupt
      case Some(doc) => if SafeId(doc.id) && name == FinalName(doc.id) then Read(doc) else Corrupt
  }

  /** How far a persist gets: it completes, with or without the directory sync having worked; one
      of its steps raises, and removing the temporary file may fail too; or the process dies. */
  datatype Fate =
    | Completes(dirSynced: bool)
    | CreateRaises
    | WriteRaises(cleaned: bool)
    | SyncRaises(cleaned: bool)
    | ReplaceRaises(cleaned: bool)
    | DiesCreated
    | DiesWritten
    | DiesSynced
    | DiesReplaced

  datatype Outcome = Returned(doc: Receipt) | InvalidId | Raised | Died

  function Cleanup(d: Disk, tmp: string, cleaned: bool): Disk {
    if cleaned then Then(d, Unlink(tmp)) else d
  }

  function PersistNew(d: Disk, r: Receipt, tmp: string, fate: Fate): (Disk, Outcome) {
    var created := Then(d, Put(tmp, File(None, false)));
    var written := Then(created, Put(tmp, File(Some(r), false)));
    var synced := Then(written, Put(tmp, File(Some(r), true)));
    var replaced := Then(synced, Move(tmp, FinalName(r.id), File(Some(r), true)));
    match fate
    case CreateRaises => (d, Raised)
    case WriteRaises(cleaned) => (Cleanup(created, tmp, cleaned), Raised)
    case SyncRaises(cleaned) => (Cleanup(written, tmp, cleaned), Raised)
    case ReplaceRaises(cleaned) => (Cleanup(synced, tmp, cleaned), Raised)
    case DiesCreated => (created, Died)
    case DiesWritten => (written, Died)
    case DiesSynced => (synced, Died)
    case DiesReplaced => (replaced, Died)
    case Completes(dirSynced) => (if dirSynced then Synced(replaced) else replaced, Returned(r))
  }

  function PersistCall(d: Disk, r: Receipt, hex: string, fate: Fate): (Disk, Outcome) {
    if !SafeId(r.id) then (d, InvalidId)
    else match ReadOne(Visible(d), FinalName(r.id))
      case Read(doc) => (d, Returned(doc))
      case Corrupt => (d, Raised)
      case Missing => PersistNew(d, r, TempName(r.id, hex), fate)
  }

  datatype AckFate = Acks(dirSynced: bool) | RemoveRaises | DiesBefore | DiesRemoved

  datatype AckOutcome = Acked(already: bool) | AckInvalidId | AckRaised | AckDied

  function AckCall(d: Disk, id: string, fate: AckFate): (Disk, AckOutcome) {
    if !SafeId(id) then (d, AckInvalidId)
    else if FinalName(id) !in Visible(d) then (d, Acked(true))
    else
      var removed := Then(d, Unlink(FinalName(id)));
      match fate
      case RemoveRaises => (d, AckRaised)
      case DiesBefore => (d, AckDied)
      case DiesRemoved => (removed, AckDied)
      case Acks(dirSynced) => (if dirSynced then Synced(removed) else removed, Acked(false))
  }

  /** Power loss keeps an arbitrary part of the operations that were not synced, and may tear any
      file whose data was not. */
  function DoSome(dir: Dir, ops: seq<Op>, keep: seq<bool>): Dir
    requires |keep| == |ops|
  {
    if ops == [] then dir else
      var n := |ops| - 1;
      var front := DoSome(dir, ops[..n], keep[..n]);
      if keep[n] then Do(front, ops[n]) else front
  }

  function Torn(dir: Dir): Dir {
    map name | name in dir :: if dir[name].synced then dir[name] else File(None, true)
  }

  function PowerLoss(d: Disk, keep: seq<bool>): Disk
    requires |keep| == |d.pending|
  {
    Disk(Torn(DoSome(d.base, d.pending, keep)), [])
  }

  // ----- Invariant over all runs -----

  datatype Event = DoPersist(r: Receipt, hex: string, fate: Fate) | DoAck(id: string,
      ackFate: AckFate) | LosePower(keep: seq<bool>)

  predicate Possible(d: Disk, e: Event) {
    e.LosePower? ==> |e.keep| == |d.pending|
  }

  function Next(d: Disk, e: Event): Disk
    requires Possible(d, e)
  {
    match e
    case DoPersist(r, hex, fate) => PersistCall(d, r, hex, fate).0
    case DoAck(id, fate) => AckCall(d, id, fate).0
    case LosePower(keep) => PowerLoss(d, keep)
  }

  predicate Runs(from: Disk, events: seq<Event>, to: Disk)
    decreases |events|
  {
    if events == [] then from == to
    else Possible(from, events[0]) && Runs(Next(from, events[0]), events[1..], to)
  }

  /** A file under a receipt's name is complete, durable, and holds that receipt. */
  predicate GoodFile(name: string, f: File) {
    IsFinal(name) ==> f.synced && f.doc.Some? && SafeId(f.doc.value.id) && name == FinalName(f.doc.value.id)
  }

  predicate GoodDir(dir: Dir) {
    forall name :: name in dir ==> GoodFile(name, dir[name])
  }

  /** Receipts are only moved in where there is none, and only removed where there is one. */
  predicate GoodOp(dir: Dir, op: Op) {
    match op
    case Put(name, _) => !IsFinal(name)
    case Move(from, to, file) => !IsFinal(from) && GoodFile(to, file) && to !in dir
    case Unlink(name) => IsFinal(name) ==> name in dir
  }

  predicate GoodOps(dir: Dir, ops: seq<Op>) {
    ops != [] ==> GoodOps(dir, ops[..|ops| - 1]) && GoodOp(DoAll(dir, ops[..|ops| - 1]), ops[|ops| - 1])
  }

  predicate Inv(d: Disk) {
    GoodDir(d.base) && GoodOps(d.base, d.pending)
  }

  type Sound = d: Disk | Inv(d) witness Disk(map[], [])

  lemma {:induction false} VisibleGood(base: Dir, ops: seq<Op>)
    requires GoodDir(base) && GoodOps(base, ops)
    ensures GoodDir(DoAll(base, ops))
  {
    if ops != [] {
      VisibleGood(base, ops[..|ops| - 1]);
    }
  }

  lemma {:induction false} ThenKeepsInv(d: Disk, op: Op)
    requires Inv(d) && GoodOp(Visible(d), op)
    ensures Inv(Then(d, op)) && Visible(Then(d, op)) == Do(Visible(d), op)
  {
    hide GoodDir, GoodOp, Do;
    assert (d.pending + [op])[..|d.pending|] == d.pending;
  }

  lemma {:induction false} SyncedKeepsInv(d: Sound)
    ensures Inv(Synced(d)) && Visible(Synced(d)) == Visible(d)
  {
    VisibleGood(d.base, d.pending);
  }

  /** The receipts a listing of a directory finds, by file name. */
  function Listed(dir: Dir): map<string, Receipt> {
    map name | name in dir && IsFinal(name) && dir[name].doc.Some? :: dir[name].doc.value
  }

  function Receipts(d: Disk): map<string, Receipt> { Listed(Visible(d)) }

  /** What one operation does to a listing. */
  lemma {:induction false} ListedAfter(dir: Dir, op: Op)
    ensures op.Put? && !IsFinal(op.name) ==> Listed(Do(dir, op)) == Listed(dir)
    ensures op.Unlink? ==> Listed(Do(dir, op)) == Listed(dir) - {op.name}
    ensures op.Move? && !IsFinal(op.from) && IsFinal(op.to) && op.file.doc.Some? ==>
        Listed(Do(dir, op)) == Listed(dir)[op.to := op.file.doc.value]
  {
    hide IsFinal;
  }

  lemma {:induction false} NotListed(dir: Dir, name: string)
    ensures !IsFinal(name) ==> Listed(dir) - {name} == Listed(dir)
  {
    if !IsFinal(name) {
      hide IsFinal;
    }
  }

  /** Steps on the temporary file keep the invariant and show no receipt. */
  lemma {:induction false} TempStep(d: Disk, op: Op, tmp: string)
    requires Inv(d) && !IsFinal(tmp) && (op == Unlink(tmp) || (op.Put? && op.name == tmp))
    ensures Inv(Then(d, op)) && Receipts(Then(d, op)) == Receipts(d)
    ensures forall name :: IsFinal(name) ==> (name in Visible(Then(d, op)) <==> name in Visible(d))
  {
    ThenKeepsInv(d, op);
    ListedAfter(Visible(d), op);
    NotListed(Visible(d), tmp);
    hide Inv, Then, Visible, IsFinal, GoodDir, GoodOps, Listed;
  }

  lemma {:induction false} MoveStep(d: Disk, tmp: string, r: Receipt)
    requires Inv(d) && !IsFinal(tmp) && SafeId(r.id) && FinalName(r.id) !in Visible(d)
    ensures var after := Then(d, Move(tmp, FinalName(r.id), File(Some(r), true)));
      Inv(after) && Receipts(after) == Receipts(d)[FinalName(r.id) := r]
  {
    NamesApart(r.id, "");
    var op := Move(tmp, FinalName(r.id), File(Some(r), true));
    ThenKeepsInv(d, op);
    ListedAfter(Visible(d), op);
    hide Inv, Then, Visible, Do, IsFinal, FinalName, SafeId, Listed;
  }

  /** A new receipt appears when, and only when, the persist gets past the rename. */
  predicate Publishes(fate: Fate) { fate.Completes? || fate.DiesReplaced? }

  lemma {:induction false} PersistNewEffect(d: Disk, r: Receipt, hex: string, fate: Fate)
    requires Inv(d) && SafeId(r.id) && FinalName(r.id) !in Visible(d)
    ensures var after := PersistNew(d, r, TempName(r.id, hex), fate).0;
      && Inv(after)
      && Receipts(after) == if Publishes(fate) then Receipts(d)[FinalName(r.id) := r] else Receipts(d)
  {
    hide Inv, Receipts, Visible, Then, Synced, IsFinal, FinalName, TempName, SafeId, GoodDir, GoodOps, Do, DoAll,
      Listed;
    NamesApart(r.id, hex);
    var tmp := TempName(r.id, hex);
    var created := Then(d, Put(tmp, File(None, false)));
    TempStep(d, Put(tmp, File(None, false)), tmp);
    var written := Then(created, Put(tmp, File(Some(r), false)));
    TempStep(created, Put(tmp, File(Some(r), false)), tmp);
    var synced := Then(written, Put(tmp, File(Some(r), true)));
    TempStep(written, Put(tmp, File(Some(r), true)), tmp);
    match fate
    case WriteRaises(_) => TempStep(created, Unlink(tmp), tmp);
    case SyncRaises(_) => TempStep(written, Unlink(tmp), tmp);
    case ReplaceRaises(_) => TempStep(synced, Unlink(tmp), tmp);
    case DiesReplaced => MoveStep(synced, tmp, r);
    case Completes(_) =>
      MoveStep(synced, tmp, r);
      SyncedKeepsInv(Then(synced, Move(tmp, FinalName(r.id), File(Some(r), true))));
      SyncedReceipts(Then(synced, Move(tmp, FinalName(r.id), File(Some(r), true))));
    case _ =>
  }

  lemma {:induction false} ReceiptsAreVisible(d: Sound, id: string)
    ensures FinalName(id) in Visible(d) <==> FinalName(id) in Receipts(d)
    ensures FinalName(id) in Visible(d) ==> ReadOne(Visible(d), FinalName(id)) == Read(Receipts(d)[FinalName(id)])
  {
    NamesApart(id, "");
    VisibleGood(d.base, d.pending);
  }

  lemma {:induction false} AckEffect(d: Sound, id: string, fate: AckFate)
    ensures var after := AckCall(d, id, fate).0;
      && Inv(after)
      && Receipts(after) == if SafeId(id) && (fate.Acks? || fate.DiesRemoved?) then Receipts(d) - {FinalName(id)}
          else Receipts(d)
  {
    hide Inv, Receipts, Listed, Visible, Then, Synced, Do, DoAll, GoodDir, GoodOps, IsFinal, SafeId, FinalName;
    ReceiptsAreVisible(d, id);
    if FinalName(id) !in Visible(d) {
      WithoutNothing(Receipts(d), FinalName(id));
    } else {
      var removed := Then(d, Unlink(FinalName(id)));
      RemoveStep(d, id);
      SyncedKeepsInv(removed);
      SyncedReceipts(removed);
    }
  }

  lemma {:induction false} WithoutNothing(m: map<string, Receipt>, name: string)
    ensures name !in m ==> m - {name} == m
  {
  }

  lemma {:induction false} SyncedReceipts(d: Disk)
    ensures Visible(Synced(d)) == Visible(d) ==> Receipts(Synced(d)) == Receipts(d)
  {
  }

  lemma {:induction false} RemoveStep(d: Disk, id: string)
    requires Inv(d) && FinalName(id) in Visible(d)
    ensures var after := Then(d, Unlink(FinalName(id)));
      Inv(after) && Receipts(after) == Receipts(d) - {FinalName(id)}
  {
    NamesApart(id, "");
    ThenKeepsInv(d, Unlink(FinalName(id)));
    ListedAfter(Visible(d), Unlink(FinalName(id)));
    hide Inv, Then, Visible, Do, IsFinal, FinalName, Listed;
  }

  lemma {:induction false} DoSomeGood(base: Dir, ops: seq<Op>, keep: seq<bool>)
    requires GoodDir(base) && GoodOps(base, ops) && |keep| == |ops|
    ensures GoodDir(DoSome(base, ops, keep))
  {
    if ops != [] {
      DoSomeGood(base, ops[..|ops| - 1], keep[..|ops| - 1]);
    }
  }

  lemma {:induction false} EventKeepsInv(d: Disk, e: Event)
    requires Inv(d) && Possible(d, e)
    ensures Inv(Next(d, e))
  {
    match e
    case DoPersist(r, hex, fate) =>
      if SafeId(r.id) && FinalName(r.id) !in Visible(d) { PersistNewEffect(d, r, hex, fate); }
    case DoAck(id, fate) => AckEffect(d, id, fate);
    case LosePower(keep) => DoSomeGood(d.base, d.pending, keep);
  }

  lemma {:induction false} RunKeepsInv(from: Disk, events: seq<Event>, to: Disk)
    requires Inv(from) && Runs(from, events, to)
    ensures Inv(to)
    decreases |events|
  {
    if events != [] {
      EventKeepsInv(from, events[0]);
      RunKeepsInv(Next(from, events[0]), events[1..], to);
    }
  }

  const EMPTY := Disk(map[], [])

  /** After every run of calls, failures, crashes and power losses, each file with a receipt's name
      reads back as a complete receipt whose id is that name. */
  lemma {:induction false} VisibleReceiptsComplete(events: seq<Event>, d: Disk, name: string)
    requires Runs(EMPTY, events, d) && IsFinal(name) && name in Visible(d)
    ensures ReadOne(Visible(d), name).Read? && name == FinalName(ReadOne(Visible(d), name).doc.id)
  {
    RunKeepsInv(EMPTY, events, d);
    VisibleGood(d.base, d.pending);
  }

  // ----- The pending set is the ledger of the calls -----

  /** What the calls amount to, told without any file: the first receipt published under an id
      stays until that id is acknowledged. */
  function LedgerStep(ledger: map<string, Receipt>, e: Event): map<string, Receipt> {
    match e
    case DoPersist(r, _, fate) =>
      if SafeId(r.id) && FinalName(r.id) !in ledger && Publishes(fate) then ledger[FinalName(r.id) := r] else ledger
    case DoAck(id, fate) =>
      if SafeId(id) && (fate.Acks? || fate.DiesRemoved?) then ledger - {FinalName(id)} else ledger
    case LosePower(_) => ledger
  }

  function Ledger(ledger: map<string, Receipt>, events: seq<Event>): map<string, Receipt>
    decreases |events|
  {
    if events == [] then ledger else Ledger(LedgerStep(ledger, events[0]), events[1..])
  }

  /** Persisting an id that is pending returns the pending document and changes nothing, whatever
      document the retry brings and whatever its fate. */
  lemma {:induction false} PersistAgainReturnsFirst(d: Disk, r: Receipt, hex: string, fate: Fate)
    requires Inv(d) && SafeId(r.id) && FinalName(r.id) in Receipts(d)
    ensures PersistCall(d, r, hex, fate) == (d, Returned(Receipts(d)[FinalName(r.id)]))
  {
    ReceiptsAreVisible(d, r.id);
  }

  /** Whatever a persist has returned is then pending; acknowledging twice is acknowledging once. */
  lemma {:induction false} ReturnedIsPending(d: Sound, r: Receipt, hex: string, fate: Fate)
    ensures var (after, out) := PersistCall(d, r, hex, fate);
      out.Returned? ==>
        out.doc.id == r.id && FinalName(r.id) in Receipts(after) && Receipts(after)[FinalName(r.id)] == out.doc
  {
    ReceiptsAreVisible(d, r.id);
    if SafeId(r.id) && FinalName(r.id) !in Visible(d) {
      PersistNewEffect(d, r, hex, fate);
    } else {
      VisibleGood(d.base, d.pending);
      NameIsId(r.id);
    }
  }

  lemma {:induction false} NameIsId(id: string)
    ensures forall other :: FinalName(other) == FinalName(id) ==> other == id
  {
    forall other | FinalName(other) == FinalName(id) ensures other == id {
      assert FinalName(other)[..|other|] == other && FinalName(id)[..|id|] == id;
    }
  }

  lemma {:induction false} AckTwice(d: Disk, id: string, fate: AckFate, again: AckFate)
    requires Inv(d) && SafeId(id) && AckCall(d, id, fate).1.Acked?
    ensures AckCall(AckCall(d, id, fate).0, id, again) == (AckCall(d, id, fate).0, Acked(true))
  {
    AckEffect(d, id, fate);
    ReceiptsAreVisible(AckCall(d, id, fate).0, id);
  }

  // ----- What a call answers -----

  /** A file reads as the receipt it holds exactly when that is complete, its id is an accepted one, and the
      file is named for it. */
  lemma {:induction false} ReadsIff(dir: Dir, name: string, doc: Receipt)
    ensures ReadOne(dir, name) == Read(doc) <==>
      name in dir && dir[name].doc == Some(doc) && SafeId(doc.id) && name == doc.id + ".json"
    ensures ReadOne(dir, name) == Missing <==> name !in dir
  {
  }

  /** The ids accepted: 1 to 200 letters, digits, dots, underscores and dashes. */
  lemma {:induction false} SafeIdIff(id: string)
    ensures SafeId(id) <==>
      1 <= |id| <= 200 && forall c :: c in id ==>
        'A' <= c <= 'Z' || 'a' <= c <= 'z' || '0' <= c <= '9' || c in {'.', '_', '-'}
  {
    assert forall i :: 0 <= i < |id| ==> id[i] in id;
  }

  /** So neither name of a receipt leaves the outbox directory. */
  lemma {:induction false} NamesStayInside(id: string, hex: string)
    requires SafeId(id) && '/' !in hex
    ensures '/' !in FinalName(id) && '/' !in TempName(id, hex) && FinalName(id) != "." && FinalName(id) != ".."
  {
    SafeIdIff(id);
    assert |FinalName(id)| > 5;
  }

  /** What an acknowledgement answers: that it was done before exactly when nothing is pending under the id. */
  lemma {:induction false} AckAnswers(d: Sound, id: string, fate: AckFate)
    ensures match AckCall(d, id, fate).1
      case AckInvalidId => !SafeId(id)
      case Acked(true) => SafeId(id) && FinalName(id) !in Receipts(d)
      case Acked(false) => SafeId(id) && FinalName(id) in Receipts(d) && fate.Acks?
      case AckRaised => SafeId(id) && FinalName(id) in Receipts(d) && fate.RemoveRaises?
      case AckDied => SafeId(id) && FinalName(id) in Receipts(d) && (fate.DiesBefore? || fate.DiesRemoved?)
  {
    ReceiptsAreVisible(d, id);
  }

  /** What a persist answers: the pending document if there is one, and else as its steps go. */
  lemma {:induction false} PersistAnswers(d: Sound, r: Receipt, hex: string, fate: Fate)
    ensures match PersistCall(d, r, hex, fate).1
      case InvalidId => !SafeId(r.id)
      case Returned(doc) =>
        SafeId(r.id) &&
        (if FinalName(r.id) in Receipts(d) then doc == Receipts(d)[FinalName(r.id)] else doc == r && fate.Completes?)
      case Raised =>
        SafeId(r.id) && FinalName(r.id) !in Receipts(d) &&
        (fate.CreateRaises? || fate.WriteRaises? || fate.SyncRaises? || fate.ReplaceRaises?)
      case Died =>
        SafeId(r.id) && FinalName(r.id) !in Receipts(d) &&
        (fate.DiesCreated? || fate.DiesWritten? || fate.DiesSynced? || fate.DiesReplaced?)
  {
    ReceiptsAreVisible(d, r.id);
  }

  /** The temporary file of a new receipt is left exactly by a death before the rename and by a failure
      whose cleanup failed too; it is complete once written and synced once synced. All other names but the
      receipt's are as they were. */
  lemma {:induction false} TempIsLeft(d: Sound, r: Receipt, hex: string, fate: Fate)
    requires FinalName(r.id) !in Visible(d) && TempName(r.id, hex) !in Visible(d)
    ensures var tmp, after := TempName(r.id, hex), Visible(PersistNew(d, r, TempName(r.id, hex), fate).0);
      && (tmp in after <==> fate in {DiesCreated, DiesWritten, DiesSynced, WriteRaises(false), SyncRaises(false),
          ReplaceRaises(false)})
      && (tmp in after ==>
          after[tmp] == File(if fate in {DiesCreated, WriteRaises(false)} then None else Some(r),
            fate in {DiesSynced, ReplaceRaises(false)}))
      && (forall name :: name != tmp && name != FinalName(r.id) ==>
          (name in after <==> name in Visible(d)) && (name in after ==> after[name] == Visible(d)[name]))
  {
    NamesApart(r.id, hex);
    var tmp := TempName(r.id, hex);
    hide FinalName, TempName, IsFinal;
    var created := Then(d, Put(tmp, File(None, false)));
    var written := Then(created, Put(tmp, File(Some(r), false)));
    var synced := Then(written, Put(tmp, File(Some(r), true)));
    ThenShows(d, Put(tmp, File(None, false)));
    ThenShows(created, Put(tmp, File(Some(r), false)));
    ThenShows(written, Put(tmp, File(Some(r), true)));
    ThenShows(synced, Move(tmp, FinalName(r.id), File(Some(r), true)));
    ThenShows(created, Unlink(tmp));
    ThenShows(written, Unlink(tmp));
    ThenShows(synced, Unlink(tmp));
    hide Visible, Then;
    assert Visible(Synced(Then(synced, Move(tmp, FinalName(r.id), File(Some(r), true))))) ==
      Visible(Then(synced, Move(tmp, FinalName(r.id), File(Some(r), true)))) by { SyncedShows(Then(synced,
        Move(tmp, FinalName(r.id), File(Some(r), true)))); }
  }

  lemma {:induction false} ThenShows(d: Disk, op: Op)
    ensures Visible(Then(d, op)) == Do(Visible(d), op)
  {
    assert (d.pending + [op])[..|d.pending|] == d.pending;
  }

  lemma {:induction false} SyncedShows(d: Disk)
    ensures Visible(Synced(d)) == Visible(d)
  {
  }

  // ----- Power loss -----

  predicate Touches(op: Op, name: string) {
    match op
    case Put(n, _) => n == name
    case Move(from, to, _) => from == name || to == name
    case Unlink(n) => n == name
  }

  predicate Touched(ops: seq<Op>, name: string) {
    ops != [] && (Touches(ops[|ops| - 1], name) || Touched(ops[..|ops| - 1], name))
  }

  function Lookup(d: Disk, name: string): Option<File> {
    if name in Visible(d) then Some(Visible(d)[name]) else None
  }

  /** Every power loss leaves the name as it is now. */
  ghost predicate Survives(d: Disk, name: string) {
    forall keep: seq<bool> :: |keep| == |d.pending| ==> Lookup(PowerLoss(d, keep), name) == Lookup(d, name)
  }

  lemma {:induction false} UntouchedStays(base: Dir, ops: seq<Op>, keep: seq<bool>, name: string)
    requires |keep| == |ops| && !Touched(ops, name)
    ensures name in DoSome(base, ops, keep) <==> name in base
    ensures name in base ==> DoSome(base, ops, keep)[name] == base[name]
    ensures name in DoAll(base, ops) <==> name in base
    ensures name in base ==> DoAll(base, ops)[name] == base[name]
  {
    if ops != [] {
      UntouchedStays(base, ops[..|ops| - 1], keep[..|ops| - 1], name);
    }
  }

  /** Losing only the last operation on a name shows the name as it was before that operation. */
  lemma {:induction false} LastTouchLost(base: Dir, ops: seq<Op>, name: string) returns (keep: seq<bool>)
    requires GoodOps(base, ops) && IsFinal(name) && Touched(ops, name)
    ensures |keep| == |ops|
    ensures name in DoSome(base, ops, keep) <==> name !in DoAll(base, ops)
  {
    var n := |ops| - 1;
    if Touches(ops[n], name) {
      keep := seq(n, _ => true) + [false];
      assert keep[..n] == seq(n, _ => true);
      KeepAll(base, ops[..n]);
    } else {
      var front := LastTouchLost(base, ops[..n], name);
      keep := front + [true];
      assert keep[..n] == front;
    }
  }

  lemma {:induction false} KeepAll(base: Dir, ops: seq<Op>)
    ensures DoSome(base, ops, seq(|ops|, _ => true)) == DoAll(base, ops)
  {
    if ops != [] {
      KeepAll(base, ops[..|ops| - 1]);
      assert seq(|ops|, _ => true)[..|ops| - 1] == seq(|ops| - 1, _ => true);
    }
  }

  /** A receipt name, pending or acknowledged, is safe from every power loss exactly when no
      operation on it is still waiting for a directory sync. */
  lemma {:induction false} SurvivesIff(d: Disk, name: string)
    requires Inv(d) && IsFinal(name)
    ensures Survives(d, name) <==> !Touched(d.pending, name)
  {
    if Touched(d.pending, name) {
      var keep := LastTouchLost(d.base, d.pending, name);
      assert Visible(PowerLoss(d, keep)) == Torn(DoSome(d.base, d.pending, keep));
      assert Lookup(PowerLoss(d, keep), name) != Lookup(d, name);
    } else {
      forall keep: seq<bool> | |keep| == |d.pending| ensures Lookup(PowerLoss(d, keep), name) == Lookup(d, name) {
        UntouchedStays(d.base, d.pending, keep, name);
        assert Visible(PowerLoss(d, keep)) == Torn(DoSome(d.base, d.pending, keep));
      }
    }
  }

  /** A returned persist survives every power loss exactly when it wrote the receipt and its
      directory sync worked, or found the receipt with no unsynced operation on its name. */
  lemma {:induction false} ReturnedSurvivesIff(d: Disk, r: Receipt, hex: string, fate: Fate)
    requires Inv(d) && PersistCall(d, r, hex, fate).1.Returned?
    ensures Survives(PersistCall(d, r, hex, fate).0, FinalName(r.id)) <==>
      if FinalName(r.id) in Visible(d) then !Touched(d.pending, FinalName(r.id)) else fate == Completes(true)
  {
    var after := PersistCall(d, r, hex, fate).0;
    EventKeepsInv(d, DoPersist(r, hex, fate));
    NamesApart(r.id, hex);
    SurvivesIff(after, FinalName(r.id));
  }

  /** So a retry can return a receipt that a power loss then takes away: the first daemon dies
      between the rename and the directory sync, and the retry finds the file and syncs nothing. */
  lemma {:induction false} RetryCanLose(d: Disk, r: Receipt, hex: string)
    requires Inv(d) && SafeId(r.id) && FinalName(r.id) !in Visible(d)
    ensures var died := PersistCall(d, r, hex, DiesReplaced).0;
      && PersistCall(died, r, hex, Completes(true)) == (died, Returned(r))
      && !Survives(died, FinalName(r.id))
  {
    var died := PersistNew(d, r, TempName(r.id, hex), DiesReplaced).0;
    ReceiptsAreVisible(d, r.id);
    assert PersistCall(d, r, hex, DiesReplaced).0 == died;
    PersistNewEffect(d, r, hex, DiesReplaced);
    PersistAgainReturnsFirst(died, r, hex, Completes(true));
    NamesApart(r.id, hex);
    RenameTouches(d, r, TempName(r.id, hex));
    SurvivesIff(died, FinalName(r.id));
  }

  lemma {:induction false} RenameTouches(d: Disk, r: Receipt, tmp: string)
    ensures Touched(PersistNew(d, r, tmp, DiesReplaced).0.pending, FinalName(r.id))
  {
  }

  // ----- What a power loss leaves of the pending set -----

  ghost predicate AllSynced(d: Disk) {
    forall name :: IsFinal(name) ==> !Touched(d.pending, name)
  }

  /** Every power loss leaves the pending receipts as they are exactly when no receipt name has an
      unsynced change. */
  lemma {:induction false} LossKeepsAllIff(d: Disk)
    requires Inv(d)
    ensures (forall keep: seq<bool> :: |keep| == |d.pending| ==> Receipts(PowerLoss(d, keep)) == Receipts(d)) <==>
        AllSynced(d)
  {
    forall name | IsFinal(name) ensures Survives(d, name) <==> !Touched(d.pending, name) { SurvivesIff(d, name); }
    if AllSynced(d) {
      forall keep: seq<bool> | |keep| == |d.pending| ensures Receipts(PowerLoss(d, keep)) == Receipts(d) {
        SameListing(Visible(PowerLoss(d, keep)), Visible(d));
      }
    } else {
      var name :| IsFinal(name) && Touched(d.pending, name);
      var keep := LastTouchLost(d.base, d.pending, name);
      ListedIffThere(d, keep, name);
    }
  }

  lemma {:induction false} SameListing(a: Dir, b: Dir)
    requires forall name :: IsFinal(name) ==> (name in a <==> name in b) && (name in a ==> a[name] == b[name])
    ensures Listed(a) == Listed(b)
  {
    hide IsFinal;
  }

  /** A receipt name is listed exactly when it is there, before a power loss and after. */
  lemma {:induction false} ListedIffThere(d: Disk, keep: seq<bool>, name: string)
    requires Inv(d) && |keep| == |d.pending| && IsFinal(name)
    ensures name in Receipts(d) <==> name in DoAll(d.base, d.pending)
    ensures name in Receipts(PowerLoss(d, keep)) <==> name in DoSome(d.base, d.pending, keep)
  {
    VisibleGood(d.base, d.pending);
    DoSomeGood(d.base, d.pending, keep);
    hide IsFinal;
  }

  /** What a name showed after the first `j` changes since the last sync. */
  function LookupAt(d: Disk, j: nat, name: string): Option<File>
    requires j <= |d.pending|
  {
    var dir := DoAll(d.base, d.pending[..j]);
    if name in dir then Some(dir[name]) else None
  }

  /** After any power loss each receipt name shows what it showed at some moment since the last sync. */
  lemma {:induction false} LossShowsEarlier(d: Disk, keep: seq<bool>, name: string) returns (j: nat)
    requires Inv(d) && |keep| == |d.pending| && IsFinal(name)
    ensures j <= |d.pending| && Lookup(PowerLoss(d, keep), name) == LookupAt(d, j, name)
  {
    j := ShowsEarlier(d.base, d.pending, keep, name);
    DoSomeGood(d.base, d.pending, keep);
    assert Visible(PowerLoss(d, keep)) == Torn(DoSome(d.base, d.pending, keep));
  }

  lemma {:induction false} ShowsEarlier(base: Dir, ops: seq<Op>, keep: seq<bool>, name: string) returns (j: nat)
    requires GoodOps(base, ops) && |keep| == |ops| && IsFinal(name)
    ensures j <= |ops|
    ensures name in DoSome(base, ops, keep) <==> name in DoAll(base, ops[..j])
    ensures name in DoSome(base, ops, keep) ==> DoSome(base, ops, keep)[name] == DoAll(base, ops[..j])[name]
  {
    if ops == [] { return 0; }
    var n := |ops| - 1;
    assert ops[..n + 1] == ops;
    if keep[n] && Touches(ops[n], name) {
      j := n + 1;
    } else {
      j := ShowsEarlier(base, ops[..n], keep[..n], name);
      assert ops[..n][..j] == ops[..j];
    }
  }

  /** Power is only lost where no receipt name has an unsynced change. */
  ghost predicate LosesNothing(from: Disk, events: seq<Event>)
    decreases |events|
  {
    events != [] ==>
      Possible(from, events[0]) && (events[0].LosePower? ==> AllSynced(from)) &&
      LosesNothing(Next(from, events[0]), events[1..])
  }

  /** In every run, process deaths at any step and such power losses included, the pending receipts are
      exactly the ledger. */
  lemma {:induction false} PendingIsLedger(from: Disk, events: seq<Event>, to: Disk)
    requires Inv(from) && Runs(from, events, to) && LosesNothing(from, events)
    ensures Receipts(to) == Ledger(Receipts(from), events)
    decreases |events|
  {
    if events != [] {
      EventKeepsInv(from, events[0]);
      EventIsLedger(from, events[0]);
      PendingIsLedger(Next(from, events[0]), events[1..], to);
    }
  }

  lemma {:induction false} EventIsLedger(d: Disk, e: Event)
    requires Inv(d) && Possible(d, e) && (e.LosePower? ==> AllSynced(d))
    ensures Receipts(Next(d, e)) == LedgerStep(Receipts(d), e)
  {
    match e
    case DoPersist(r, hex, fate) =>
      ReceiptsAreVisible(d, r.id);
      if SafeId(r.id) && FinalName(r.id) !in Visible(d) { PersistNewEffect(d, r, hex, fate); }
    case DoAck(id, fate) => AckEffect(d, id, fate);
    case LosePower(keep) => LossKeepsAllIff(d);
  }

  // ----- Durable receipts -----

  predicate Acknowledges(e: Event, id: string) {
    e.DoAck? && e.id == id
  }

  predicate Persists(e: Event, id: string) {
    e.DoPersist? && e.r.id == id
  }

  /** Under the id the receipt is pending, or nothing is. */
  predicate Shows(d: Disk, id: string, doc: Option<Receipt>) {
    match doc
    case Some(r) => FinalName(id) in Receipts(d) && Receipts(d)[FinalName(id)] == r
    case None => FinalName(id) !in Receipts(d)
  }

  /** It does, and no change of it is unsynced. */
  ghost predicate Settled(d: Disk, id: string, doc: Option<Receipt>) {
    Shows(d, id, doc) && !Touched(d.pending, FinalName(id))
  }

  /** No call of the run is meant to change what the id shows. */
  predicate LeavesAlone(events: seq<Event>, id: string, doc: Option<Receipt>) {
    forall i :: 0 <= i < |events| ==> !(if doc.Some? then Acknowledges(events[i], id) else Persists(events[i], id))
  }

  /** The id shows the receipt, or nothing, after every run of calls, deaths and power losses that leaves
      it alone. */
  ghost predicate Lasts(d: Disk, id: string, doc: Option<Receipt>) {
    forall events, to :: Runs(d, events, to) && LeavesAlone(events, id, doc) ==> Shows(to, id, doc)
  }

  /** A pending receipt lasts until it is acknowledged, and its absence until it is persisted again, exactly
      when no change of its name is unsynced. */
  lemma {:induction false} LastsIff(d: Disk, id: string, doc: Option<Receipt>)
    requires Inv(d)
    ensures Lasts(d, id, doc) <==> Settled(d, id, doc)
  {
    NamesApart(id, "");
    if Settled(d, id, doc) {
      forall events, to | Runs(d, events, to) && LeavesAlone(events, id, doc) ensures Shows(to, id, doc) {
        SettledStays(d, events, to, id, doc);
      }
    } else if !Shows(d, id, doc) {
      assert Runs(d, [], d);
    } else {
      var keep := LastTouchLost(d.base, d.pending, FinalName(id));
      ListedIffThere(d, keep, FinalName(id));
      var loss := LosePower(keep);
      assert Runs(Next(d, loss), [], Next(d, loss));
      assert Runs(d, [loss], Next(d, loss));
      assert !Shows(Next(d, loss), id, doc);
    }
  }

  /** What a persist has returned is pending until it is acknowledged, whatever happens to the machine, exactly
      when the call wrote it and synced the directory, or found it with no unsynced change. */
  lemma {:induction false} ReturnedLastsIff(d: Disk, r: Receipt, hex: string, fate: Fate)
    requires Inv(d) && PersistCall(d, r, hex, fate).1.Returned?
    ensures var (after, out) := PersistCall(d, r, hex, fate);
      Lasts(after, r.id, Some(out.doc)) <==>
        if FinalName(r.id) in Visible(d) then !Touched(d.pending, FinalName(r.id)) else fate == Completes(true)
  {
    var (after, out) := PersistCall(d, r, hex, fate);
    EventKeepsInv(d, DoPersist(r, hex, fate));
    NamesApart(r.id, hex);
    SurvivesIff(after, FinalName(r.id));
    LastsIff(after, r.id, Some(out.doc));
    ReturnedIsPending(d, r, hex, fate);
    ReturnedSurvivesIff(d, r, hex, fate);
  }

  /** Likewise an acknowledgement lasts until the id is persisted again exactly when the call removed the
      receipt and synced the directory, or found nothing and nothing unsynced. */
  lemma {:induction false} AckedLastsIff(d: Disk, id: string, fate: AckFate)
    requires Inv(d) && AckCall(d, id, fate).1.Acked?
    ensures Lasts(AckCall(d, id, fate).0, id, None) <==>
        if FinalName(id) in Visible(d) then fate == Acks(true) else !Touched(d.pending, FinalName(id))
  {
    var after := AckCall(d, id, fate).0;
    AckEffect(d, id, fate);
    LastsIff(after, id, None);
    TouchedThen(d, Unlink(FinalName(id)), FinalName(id));
    NothingTouched(FinalName(id));
    ReceiptsAreVisible(d, id);
  }

  /** What is settled stays so. */
  lemma {:induction false} SettledStays(from: Disk, events: seq<Event>, to: Disk, id: string, doc: Option<Receipt>)
    requires Inv(from) && Runs(from, events, to) && Settled(from, id, doc)
    requires LeavesAlone(events, id, doc)
    ensures Settled(to, id, doc)
    decreases |events|
  {
    if events != [] {
      EventKeepsInv(from, events[0]);
      SettledStep(from, events[0], id, doc);
      SettledStays(Next(from, events[0]), events[1..], to, id, doc);
    }
  }

  lemma {:induction false} SettledStep(d: Disk, e: Event, id: string, doc: Option<Receipt>)
    requires Inv(d) && Possible(d, e) && Settled(d, id, doc)
    requires !(if doc.Some? then Acknowledges(e, id) else Persists(e, id))
    ensures Settled(Next(d, e), id, doc)
  {
    hide Inv, Receipts, Listed, Visible, Then, Synced, Do, DoAll, DoSome, IsFinal, SafeId, FinalName, TempName, Touched;
    hide Survives, PersistNew;
    match e
    case DoPersist(r, hex, fate) => PersistSettled(d, r, hex, fate, id, doc);
    case DoAck(other, fate) => AckSettled(d, other, fate, id, doc);
    case LosePower(keep) => LossSettled(d, keep, id, doc);
  }

  lemma {:induction false} TouchedThen(d: Disk, op: Op, name: string)
    ensures Touched(Then(d, op).pending, name) <==> Touches(op, name) || Touched(d.pending, name)
  {
    assert (d.pending + [op])[..|d.pending|] == d.pending;
  }

  lemma {:induction false} PersistSettled(d: Disk, r: Receipt, hex: string, fate: Fate, id: string,
        doc: Option<Receipt>)
    requires Inv(d) && Settled(d, id, doc) && (doc.None? ==> r.id != id)
    ensures Settled(PersistCall(d, r, hex, fate).0, id, doc)
  {
    hide Inv, Receipts, Listed, Visible, Then, Synced, Do, DoAll, IsFinal, SafeId, FinalName, TempName, Touched;
    hide PersistNew;
    ReceiptsAreVisible(d, r.id);
    NameIsId(id);
    if SafeId(r.id) && FinalName(r.id) !in Visible(d) {
      PersistNewEffect(d, r, hex, fate);
      PersistTouches(d, r, hex, fate, id);
    }
  }

  lemma {:induction false} PersistTouches(d: Disk, r: Receipt, hex: string, fate: Fate, id: string)
    requires !Touched(d.pending, FinalName(id)) && id != r.id
    ensures !Touched(PersistNew(d, r, TempName(r.id, hex), fate).0.pending, FinalName(id))
  {
    NamesApart(id, "");
    NamesApart(r.id, hex);
    NameIsId(id);
    hide IsFinal, FinalName, TempName, Touched, Then;
    var tmp, name := TempName(r.id, hex), FinalName(id);
    var created := Then(d, Put(tmp, File(None, false)));
    var written := Then(created, Put(tmp, File(Some(r), false)));
    var synced := Then(written, Put(tmp, File(Some(r), true)));
    TouchedThen(d, Put(tmp, File(None, false)), name);
    TouchedThen(created, Put(tmp, File(Some(r), false)), name);
    TouchedThen(written, Put(tmp, File(Some(r), true)), name);
    TouchedThen(synced, Move(tmp, FinalName(r.id), File(Some(r), true)), name);
    TouchedThen(created, Unlink(tmp), name);
    TouchedThen(written, Unlink(tmp), name);
    TouchedThen(synced, Unlink(tmp), name);
    NothingTouched(name);
  }

  lemma {:induction false} NothingTouched(name: string)
    ensures !Touched([], name)
  {
  }

  lemma {:induction false} AckSettled(d: Disk, other: string, fate: AckFate, id: string, doc: Option<Receipt>)
    requires Inv(d) && Settled(d, id, doc) && (doc.Some? ==> other != id)
    ensures Settled(AckCall(d, other, fate).0, id, doc)
  {
    hide Inv, Receipts, Listed, Visible, Do, DoAll, IsFinal, SafeId, FinalName, Touched, Then;
    AckEffect(d, other, fate);
    ReceiptsAreVisible(d, other);
    ReceiptsAreVisible(d, id);
    NameIsId(id);
    NothingTouched(FinalName(id));
    TouchedThen(d, Unlink(FinalName(other)), FinalName(id));
  }

  lemma {:induction false} LossSettled(d: Disk, keep: seq<bool>, id: string, doc: Option<Receipt>)
    requires Inv(d) && |keep| == |d.pending| && Settled(d, id, doc)
    ensures Settled(PowerLoss(d, keep), id, doc)
  {
    NamesApart(id, "");
    SurvivesIff(d, FinalName(id));
    ListedIffThere(d, keep, FinalName(id));
    assert Lookup(PowerLoss(d, keep), FinalName(id)) == Lookup(d, FinalName(id));
  }

  // ----- The outbox object -----

  predicate LexLess(a: string, b: string) {
    if b == "" then false else if a == "" then true
    else if a[0] != b[0] then a[0] < b[0] else LexLess(a[1..], b[1..])
  }

  lemma {:induction false} LexTransitive(a: string, b: string, c: string)
    ensures LexLess(a, b) && LexLess(b, c) ==> LexLess(a, c)
  {
    if LexLess(a, b) && LexLess(b, c) {
      if a != "" && a[0] == b[0] == c[0] {
        LexTransitive(a[1..], b[1..], c[1..]);
      }
    }
  }

  lemma {:induction false} LexTotal(a: string, b: string)
    ensures LexLess(a, b) || LexLess(b, a) || a == b
    ensures !(LexLess(a, b) && LexLess(b, a)) && !LexLess(a, a)
  {
    if a != "" && b != "" && a[0] == b[0] {
      LexTotal(a[1..], b[1..]);
    }
    if a != "" {
      LexTotal(a[1..], a[1..]);
    }
  }

  /** The order of the listing: creation time, then id. */
  predicate Before(a: Receipt, b: Receipt) {
    a.createdAt < b.createdAt || (a.createdAt == b.createdAt && LexLess(a.id, b.id))
  }

  /** That is: not created later, and with equal times the ids differ, and where they first do, the first
      has ended or has the smaller character. */
  lemma {:induction false} BeforeMeans(a: Receipt, b: Receipt)
    ensures Before(a, b) <==>
      a.createdAt <= b.createdAt && (a.createdAt == b.createdAt ==>
        exists n: nat :: n <= |a.id| && n < |b.id| && a.id[..n] == b.id[..n] && (n == |a.id| || a.id[n] < b.id[n]))
  {
    if a.createdAt == b.createdAt { LexMeans(a.id, b.id); }
  }

  lemma {:induction false} LexMeans(a: string, b: string)
    ensures LexLess(a, b) <==>
      exists n: nat :: n <= |a| && n < |b| && a[..n] == b[..n] && (n == |a| || a[n] < b[n])
  {
    if a != "" && b != "" && a[0] == b[0] {
      LexMeans(a[1..], b[1..]);
      if LexLess(a[1..], b[1..]) {
        var m: nat :| m <= |a[1..]| && m < |b[1..]| && a[1..][..m] == b[1..][..m] &&
            (m == |a[1..]| || a[1..][m] < b[1..][m]);
        assert a[..m + 1] == [a[0]] + a[1..][..m] && b[..m + 1] == [b[0]] + b[1..][..m];
      }
      if n: nat :| n <= |a| && n < |b| && a[..n] == b[..n] && (n == |a| || a[n] < b[n]) {
        assert 0 < n;
        assert a[1..][..n - 1] == a[..n][1..] && b[1..][..n - 1] == b[..n][1..];
      }
    } else if b != "" {
      assert a[..0] == b[..0];
      if n: nat :| n <= |a| && n < |b| && a[..n] == b[..n] && (n == |a| || a[n] < b[n]) {
        if 0 < n { assert a[..n][0] == b[..n][0]; }
      }
    }
  }

  predicate InOrder(docs: seq<Receipt>) {
    forall i, j :: 0 <= i < j < |docs| ==> Before(docs[i], docs[j])
  }

  lemma {:induction false} OrderMeans(docs: seq<Receipt>)
    requires InOrder(docs)
    ensures forall i, j :: 0 <= i < j < |docs| ==> (
      && docs[i].createdAt <= docs[j].createdAt
      && (docs[i].createdAt == docs[j].createdAt ==> exists n: nat :: (
          && n <= |docs[i].id| && n < |docs[j].id| && docs[i].id[..n] == docs[j].id[..n]
          && (n == |docs[i].id| || docs[i].id[n] < docs[j].id[n]))))
  {
    forall i, j | 0 <= i < j < |docs|
      ensures docs[i].createdAt <= docs[j].createdAt
      ensures docs[i].createdAt == docs[j].createdAt ==> exists n: nat :: (
          && n <= |docs[i].id| && n < |docs[j].id| && docs[i].id[..n] == docs[j].id[..n]
          && (n == |docs[i].id| || docs[i].id[n] < docs[j].id[n]))
    {
      BeforeMeans(docs[i], docs[j]);
    }
  }

  function Insert(doc: Receipt, docs: seq<Receipt>): seq<Receipt> {
    if docs == [] || Before(doc, docs[0]) then [doc] + docs else [docs[0]] + Insert(doc, docs[1..])
  }

  lemma {:induction false} InsertKeepsOrder(doc: Receipt, docs: seq<Receipt>)
    requires InOrder(docs) && forall i :: 0 <= i < |docs| ==> docs[i].id != doc.id
    ensures InOrder(Insert(doc, docs))
    ensures forall x :: x in Insert(doc, docs) <==> x == doc || x in docs
  {
    if docs != [] {
      var rest := Insert(doc, docs[1..]);
      LexTotal(doc.id, docs[0].id);
      if Before(doc, docs[0]) {
        forall j | 0 <= j < |docs| ensures Before(doc, docs[j]) {
          if j > 0 { BeforeTransitive(doc, docs[0], docs[j]); }
        }
      } else {
        InsertKeepsOrder(doc, docs[1..]);
        forall j | 0 <= j < |rest| ensures Before(docs[0], rest[j]) {
          assert rest[j] in rest;
        }
      }
    }
  }

  lemma {:induction false} BeforeTransitive(a: Receipt, b: Receipt, c: Receipt)
    ensures Before(a, b) && Before(b, c) ==> Before(a, c)
  {
    if Before(a, b) && Before(b, c) {
      if LexLess(a.id, b.id) && LexLess(b.id, c.id) {
        LexTransitive(a.id, b.id, c.id);
      }
    }
  }

  /** There is only one list in order with given members. */
  lemma {:induction false} OrderIsUnique(a: seq<Receipt>, b: seq<Receipt>)
    requires InOrder(a) && InOrder(b) && forall x :: x in a <==> x in b
    ensures a == b
  {
    if a == [] {
      if b != [] { HasMember(b); }
    } else {
      assert a[0] in a && a[0] in b;
      assert b[0] in b && b[0] in a;
      FirstIsLeast(a, b[0]);
      FirstIsLeast(b, a[0]);
      LexTotal(a[0].id, b[0].id);
      forall x ensures x in a[1..] <==> x in b[1..] {
        TailMembers(a, x);
        TailMembers(b, x);
      }
      OrderIsUnique(a[1..], b[1..]);
    }
  }

  lemma {:induction false} HasMember(a: seq<Receipt>)
    ensures a != [] ==> exists x :: x in a
  {
    if a != [] {
      assert a[0] in a;
    }
  }

  lemma {:induction false} FirstIsLeast(a: seq<Receipt>, x: Receipt)
    requires InOrder(a) && x in a
    ensures x == a[0] || Before(a[0], x)
  {
  }

  lemma {:induction false} TailMembers(a: seq<Receipt>, x: Receipt)
    requires InOrder(a) && a != []
    ensures x in a[1..] <==> x in a && x != a[0]
  {
    LexTotal(a[0].id, a[0].id);
  }

  /** A listing: every visible receipt file, or nothing if one of them cannot be read. */
  ghost predicate Lists(dir: Dir, docs: seq<Receipt>) {
    && InOrder(docs)
    && (forall name :: name in dir && IsFinal(name) ==> ReadOne(dir, name).Read? && ReadOne(dir, name).doc in docs)
    && (forall doc :: doc in docs ==> FinalName(doc.id) in dir && ReadOne(dir, FinalName(doc.id)) == Read(doc))
  }

  class AccountingOutbox {
    var disk: Disk

    constructor (disk: Disk)
      ensures this.disk == disk
    {
      this.disk := disk;
    }

    method Persist(r: Receipt, hex: string, fate: Fate) returns (out: Outcome)
      modifies this
      ensures (disk, out) == PersistCall(old(disk), r, hex, fate)
    {
      if !SafeId(r.id) {
        return InvalidId;
      }
      var existing := ReadOne(Visible(disk), FinalName(r.id));
      if existing.Read? {
        return Returned(existing.doc);
      }
      if existing.Corrupt? || fate.CreateRaises? {
        return Raised;
      }
      var tmp := TempName(r.id, hex);
      disk := Then(disk, Put(tmp, File(None, false)));
      if fate.DiesCreated? {
        return Died;
      }
      if fate.WriteRaises? {
        Clean(tmp, fate.cleaned);
        return Raised;
      }
      disk := Then(disk, Put(tmp, File(Some(r), false)));
      if fate.DiesWritten? {
        return Died;
      }
      if fate.SyncRaises? {
        Clean(tmp, fate.cleaned);
        return Raised;
      }
      disk := Then(disk, Put(tmp, File(Some(r), true)));
      if fate.DiesSynced? {
        return Died;
      }
      if fate.ReplaceRaises? {
        Clean(tmp, fate.cleaned);
        return Raised;
      }
      disk := Then(disk, Move(tmp, FinalName(r.id), File(Some(r), true)));
      if fate.DiesReplaced? {
        return Died;
      }
      if fate.dirSynced {
        disk := Synced(disk);
      }
      return Returned(r);
    }

    method Clean(tmp: string, cleaned: bool)
      modifies this
      ensures disk == Cleanup(old(disk), tmp, cleaned)
    {
      if cleaned {
        disk := Then(disk, Unlink(tmp));
      }
    }

    method Ack(id: string, fate: AckFate) returns (out: AckOutcome)
      modifies this
      ensures (disk, out) == AckCall(old(disk), id, fate)
    {
      if !SafeId(id) {
        return AckInvalidId;
      }
      if FinalName(id) !in Visible(disk) {
        return Acked(true);
      }
      if fate.RemoveRaises? {
        return AckRaised;
      }
      if fate.DiesBefore? {
        return AckDied;
      }
      disk := Then(disk, Unlink(FinalName(id)));
      if fate.DiesRemoved? {
        return AckDied;
      }
      if fate.dirSynced {
        disk := Synced(disk);
      }
      return Acked(false);
    }

    /** Lists the pending receipts, oldest first. It raises exactly when some file with a receipt's
        name does not read back. */
    method Pending() returns (docs: Option<seq<Receipt>>)
      ensures docs.Some? ==> Lists(Visible(disk), docs.value)
      ensures docs.Some? ==> forall i, j :: 0 <= i < j < |docs.value| ==> (
        && docs.value[i].createdAt <= docs.value[j].createdAt
        && (docs.value[i].createdAt == docs.value[j].createdAt ==> exists n: nat :: (
            && n <= |docs.value[i].id| && n < |docs.value[j].id| && docs.value[i].id[..n] == docs.value[j].id[..n]
            && (n == |docs.value[i].id| || docs.value[i].id[n] < docs.value[j].id[n]))))
      ensures docs.None? <==>
          exists name :: name in Visible(disk) && IsFinal(name) && !ReadOne(Visible(disk), name).Read?
    {
      var dir := Visible(disk);
      var names := set name | name in dir && IsFinal(name);
      var found: seq<Receipt> := [];
      while names != {}
        invariant forall name :: name in names ==> name in dir && IsFinal(name)
        invariant InOrder(found)
        invariant forall name :: name in dir && IsFinal(name) ==>
            name in names || (ReadOne(dir, name).Read? && ReadOne(dir, name).doc in found)
        invariant forall doc :: doc in found ==>
            FinalName(doc.id) in dir && FinalName(doc.id) !in names && ReadOne(dir, FinalName(doc.id)) == Read(doc)
        decreases names
      {
        var name :| name in names;
        var doc := ReadOne(dir, name);
        if !doc.Read? {
          return None;
        }
        forall i | 0 <= i < |found| ensures found[i].id != doc.doc.id {
          assert found[i] in found;
        }
        InsertKeepsOrder(doc.doc, found);
        found := Insert(doc.doc, found);
        names := names - {name};
      }
      OrderMeans(found);
      return Some(found);
    }
  }

  /** The receipts of a set of files that all read back, in order. */
  lemma {:induction false} Listing(dir: Dir, names: set<string>) returns (docs: seq<Receipt>)
    requires forall name :: name in names ==> name in dir && ReadOne(dir, name).Read?
    ensures InOrder(docs)
    ensures forall name :: name in names ==> ReadOne(dir, name).doc in docs
    ensures forall doc :: doc in docs ==> FinalName(doc.id) in names && ReadOne(dir, FinalName(doc.id)) == Read(doc)
    decreases |names|
  {
    if names == {} {
      docs := [];
    } else {
      var name :| name in names;
      docs := Listing(dir, names - {name});
      var doc := ReadOne(dir, name).doc;
      forall i | 0 <= i < |docs| ensures docs[i].id != doc.id {
        assert docs[i] in docs;
      }
      hide InOrder, ReadOne, Insert, FinalName;
      InsertKeepsOrder(doc, docs);
      docs := Insert(doc, docs);
    }
  }

  lemma {:induction false} ListingHolds(d: Disk, docs: seq<Receipt>)
    requires Inv(d) && Lists(Visible(d), docs)
    ensures forall doc :: doc in docs <==> FinalName(doc.id) in Receipts(d) && Receipts(d)[FinalName(doc.id)] == doc
  {
    VisibleGood(d.base, d.pending);
    forall doc ensures doc in docs <==> FinalName(doc.id) in Receipts(d) && Receipts(d)[FinalName(doc.id)] == doc {
      ReceiptsAreVisible(d, doc.id);
      NamesApart(doc.id, "");
    }
  }

  /** After any run the listing succeeds, and it is the one list in order of the visible receipts. */
  lemma {:induction false} ListingIsDetermined(events: seq<Event>, d: Disk) returns (docs: seq<Receipt>)
    requires Runs(EMPTY, events, d)
    ensures Lists(Visible(d), docs)
    ensures forall doc :: doc in docs <==> FinalName(doc.id) in Receipts(d) && Receipts(d)[FinalName(doc.id)] == doc
    ensures forall i, j :: 0 <= i < j < |docs| ==> (
      && docs[i].createdAt <= docs[j].createdAt
      && (docs[i].createdAt == docs[j].createdAt ==> exists n: nat :: (
          && n <= |docs[i].id| && n < |docs[j].id| && docs[i].id[..n] == docs[j].id[..n]
          && (n == |docs[i].id| || docs[i].id[n] < docs[j].id[n]))))
    ensures forall other :: Lists(Visible(d), other) ==> other == docs
  {
    RunKeepsInv(EMPTY, events, d);
    var dir := Visible(d);
    var names := set name | name in dir && IsFinal(name);
    forall name | name in names ensures ReadOne(dir, name).Read? {
      VisibleReceiptsComplete(events, d, name);
    }
    docs := Listing(dir, names);
    assert Lists(dir, docs);
    OrderMeans(docs);
    ListingHolds(d, docs);
    forall other | Lists(dir, other) ensures other == docs {
      ListingHolds(d, other);
      OrderIsUnique(other, docs);
    }
  }
}
