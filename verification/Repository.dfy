/** The in-process collection repository: durable traversal checkpoints moved by
    compare-and-set, and the byte ledger, as one mutable object. */
module Repository {
  import opened Prelude
  import opened ByteLedger

  /** A publisher cursor, by its UTF-8 bytes. */
  type Cursor = seq<Byte>

  datatype Scope = Scope(source: SourceId, portals: seq<string>, since: Option<int>, until: Option<int>, archiveOnly: bool)

  datatype Checkpoint = Checkpoint(
    generation: nat,
    cursor: Option<Cursor>,
    offset: nat,
    recognized: nat,
    unknown: nat,
    complete: bool,
    retryBoundary: bool)

  const FRESH := Checkpoint(1, None, 0, 0, 0, false, false)

  /** The attempt's view of its checkpoint; a checkpoint is named by its scope. */
  datatype Attempt = Attempt(
    id: AttemptId,
    scope: Scope,
    generation: nat,
    cursor: Option<Cursor>,
    offset: nat,
    recognized: nat,
    unknown: nat,
    retryBoundary: bool)

  datatype AdvanceResult = Moved(attempt: Attempt) | AttemptNotRunning | CheckpointChanged

  /** One listed file left behind by the traversal, where it was found. */
  datatype Visit = Visit(cursor: Option<Cursor>, offset: nat, file: RemoteFile)

  ghost function UnknownIn(trail: seq<Visit>): nat {
    if trail == [] then 0
    else UnknownIn(trail[..|trail| - 1]) + if trail[|trail| - 1].file.unknownFormat then 1 else 0
  }

  /** Where a checkpoint starts its next attempt: a closed generation begins again. */
  function Reopened(c: Checkpoint): Checkpoint {
    if c.complete then Checkpoint(c.generation + 1, None, 0, 0, 0, false, false) else c
  }

  ghost predicate CheckpointOk(c: Checkpoint, trail: seq<Visit>) {
    c.recognized + c.unknown == |trail| && c.unknown == UnknownIn(trail)
  }

  /** Every checkpoint counts exactly the files its generation has left behind,
      and every attempt belongs to a checkpoint. */
  ghost predicate Sound(checkpoints: map<Scope, Checkpoint>, attempts: map<AttemptId, Attempt>,
                        trail: map<Scope, seq<Visit>>) {
    && (forall a :: a in attempts ==> attempts[a].id == a && attempts[a].scope in checkpoints)
    && checkpoints.Keys <= trail.Keys
    && (forall s :: s in checkpoints ==> CheckpointOk(checkpoints[s], trail[s]))
  }

  lemma SoundStep(checkpoints: map<Scope, Checkpoint>, attempts: map<AttemptId, Attempt>, trail: map<Scope, seq<Visit>>,
                  s: Scope, c: Checkpoint, t: seq<Visit>, a: AttemptId, attempt: Attempt)
    requires Sound(checkpoints, attempts, trail) && CheckpointOk(c, t) && attempt.id == a && attempt.scope == s
    ensures Sound(checkpoints[s := c], attempts[a := attempt], trail[s := t])
  {
  }

  lemma SoundAt(checkpoints: map<Scope, Checkpoint>, attempts: map<AttemptId, Attempt>, trail: map<Scope, seq<Visit>>,
                s: Scope)
    requires Sound(checkpoints, attempts, trail)
    ensures s in checkpoints ==> s in trail && CheckpointOk(checkpoints[s], trail[s])
    ensures forall a :: a in attempts ==> attempts[a].id == a && attempts[a].scope in checkpoints
  {
  }

  lemma LeftBehind(c: Checkpoint, trail: seq<Visit>, visit: Option<Visit>, n: Checkpoint)
    requires CheckpointOk(c, trail)
    requires visit.None? ==> n.recognized == c.recognized && n.unknown == c.unknown
    requires visit.Some? ==> n.recognized + n.unknown == c.recognized + c.unknown + 1
    requires visit.Some? ==> n.unknown == c.unknown + (if visit.value.file.unknownFormat then 1 else 0)
    ensures CheckpointOk(n, trail + (if visit.Some? then [visit.value] else []))
  {
    if visit.Some? {
      assert (trail + [visit.value])[..|trail|] == trail;
    } else {
      assert trail + [] == trail;
    }
  }

  class Store {
    var checkpoints: map<Scope, Checkpoint>
    var attempts: map<AttemptId, Attempt>
    /** The ledger's dictionaries and sets, together. */
    var books: Ledger

    /** The files the current generation of each scope has been advanced past. */
    ghost var trail: map<Scope, seq<Visit>>
    /** Who paid for each archived object. */
    ghost var paid: Payments

    ghost predicate Valid()
      reads this
    {
      && Explains(books, paid)
      && attempts.Keys == books.attemptSources.Keys
      && Sound(checkpoints, attempts, trail)
    }

    constructor ()
      ensures Valid()
      ensures checkpoints == map[] && books == EMPTY
    {
      checkpoints, attempts, books := map[], map[], EMPTY;
      trail, paid := map[], map[];
      new;
      EmptyExplained();
    }

    method BeginAttempt(scope: Scope, newId: AttemptId) returns (attempt: Attempt)
      requires Valid() && newId !in attempts
      modifies this`checkpoints, this`attempts, this`books, this`trail
      ensures Valid()
      ensures books == Open(old(books), newId, scope.source)
      ensures var c := Reopened(if scope in old(checkpoints) then old(checkpoints)[scope] else FRESH);
        && checkpoints == old(checkpoints)[scope := c]
        && attempt == Attempt(newId, scope, c.generation, c.cursor, c.offset, c.recognized, c.unknown, c.retryBoundary)
      ensures attempts == old(attempts)[newId := attempt]
      ensures scope in old(checkpoints) ==> scope in old(trail)
      ensures trail == old(trail)[scope :=
        if scope in old(checkpoints) && !old(checkpoints)[scope].complete then old(trail)[scope] else []]
    {
      hide Explains, Sound;
      SoundAt(checkpoints, attempts, trail, scope);
      var c := if scope in checkpoints then checkpoints[scope] else FRESH;
      ghost var left := if scope !in checkpoints || c.complete then [] else trail[scope];
      if c.complete {
        c := Checkpoint(c.generation + 1, None, 0, 0, 0, false, false);
      }
      attempt := Attempt(newId, scope, c.generation, c.cursor, c.offset, c.recognized, c.unknown, c.retryBoundary);
      SoundStep(checkpoints, attempts, trail, scope, c, left, newId, attempt);
      OpenExplained(books, paid, newId, scope.source);
      checkpoints := checkpoints[scope := c];
      attempts := attempts[newId := attempt];
      trail := trail[scope := left];
      books := books.(running := books.running + {newId},
                      attemptSources := books.attemptSources[newId := scope.source],
                      attemptCharged := books.attemptCharged[newId := 0]);
    }

    /** Moves the checkpoint only if it still is where the caller last saw it.
        `visit` is the listed file this move leaves behind, if it leaves one. */
    method AdvanceAttempt(id: AttemptId, expectedCursor: Option<Cursor>, expectedOffset: nat, cursor: Option<Cursor>,
                          offset: nat, recognizedDelta: nat, unknownDelta: nat, ghost visit: Option<Visit>)
      returns (r: AdvanceResult)
      requires Valid() && id in attempts && attempts[id].scope in checkpoints && attempts[id].scope in trail
      requires visit.None? ==> recognizedDelta == unknownDelta == 0
      requires visit.Some? ==>
        recognizedDelta + unknownDelta == 1 && unknownDelta == (if visit.value.file.unknownFormat then 1 else 0)
      modifies this`checkpoints, this`attempts, this`trail
      ensures Valid()
      ensures var scope := old(attempts)[id].scope; var c := old(checkpoints)[scope];
        if id !in books.running then r == AttemptNotRunning && unchanged(this)
        else if c.cursor != expectedCursor || c.offset != expectedOffset then r == CheckpointChanged && unchanged(this)
        else
          var n := c.(cursor := cursor, offset := offset, recognized := c.recognized + recognizedDelta,
                      unknown := c.unknown + unknownDelta, retryBoundary := false);
          && checkpoints == old(checkpoints)[scope := n]
          && r == Moved(old(attempts)[id].(cursor := cursor, offset := offset,
                                           recognized := n.recognized, unknown := n.unknown))
          && attempts == old(attempts)[id := r.attempt]
          && trail == old(trail)[scope := old(trail)[scope] + (if visit.Some? then [visit.value] else [])]
    {
      hide Explains, Sound;
      SoundAt(checkpoints, attempts, trail, attempts[id].scope);
      if id !in books.running {
        return AttemptNotRunning;
      }
      var attempt := attempts[id];
      var c := checkpoints[attempt.scope];
      if c.cursor != expectedCursor || c.offset != expectedOffset {
        return CheckpointChanged;
      }
      c := c.(cursor := cursor, offset := offset, recognized := c.recognized + recognizedDelta,
              unknown := c.unknown + unknownDelta, retryBoundary := false);
      attempt := attempt.(cursor := cursor, offset := offset, recognized := c.recognized, unknown := c.unknown);
      ghost var left := trail[attempt.scope] + (if visit.Some? then [visit.value] else []);
      LeftBehind(checkpoints[attempt.scope], trail[attempt.scope], visit, c);
      SoundStep(checkpoints, attempts, trail, attempt.scope, c, left, id, attempt);
      checkpoints := checkpoints[attempt.scope := c];
      attempts := attempts[id := attempt];
      trail := trail[attempt.scope := left];
      return Moved(attempt);
    }

    method FinishAttempt(id: AttemptId, failed: bool, traversalComplete: bool)
      requires Valid() && id in attempts && attempts[id].scope in checkpoints
      modifies this`books, this`checkpoints
      ensures Valid()
      ensures books == Close(old(books), id)
      ensures var scope := attempts[id].scope;
        checkpoints == old(checkpoints)[scope := old(checkpoints)[scope].(
          complete := traversalComplete, retryBoundary := failed && !traversalComplete)]
    {
      hide Explains, Sound;
      CloseExplained(books, paid, id);
      books := books.(running := books.running - {id});
      var scope := attempts[id].scope;
      SoundAt(checkpoints, attempts, trail, scope);
      var c := checkpoints[scope].(complete := traversalComplete, retryBoundary := failed && !traversalComplete);
      SoundStep(checkpoints, attempts, trail, scope, c, trail[scope], id, attempts[id]);
      assert attempts[id := attempts[id]] == attempts && trail[scope := trail[scope]] == trail;
      checkpoints := checkpoints[scope := c];
    }

    method RecordTerminal(file: RemoteFile, archiveOnly: bool)
      requires Valid()
      modifies this`books
      ensures Valid()
      ensures books == NoteTerminal(old(books), file, archiveOnly)
    {
      hide Explains, Sound;
      NoteTerminalExplained(books, paid, file, archiveOnly);
      books := books.(terminal := books.terminal + {(file.identity, archiveOnly)});
    }

    method ReserveTransfer(id: AttemptId, file: FileId, bytes: int) returns (r: Answer)
      requires Valid()
      modifies this`books
      ensures Registered(old(books)) && Valid()
      ensures (books, r) == Reserve(old(books), id, file, bytes)
    {
      hide Explains, Sound;
      ExplainedKnown(books, paid, id);
      ReserveExplained(books, paid, id, file, bytes);
      if id !in books.running {
        return Refused(NotRunning);
      }
      if bytes < 0 {
        return Refused(NegativeBytes);
      }
      if (id, file) in books.transfers {
        return Answer(BudgetOf(books, id));
      }
      var source := books.attemptSources[id];
      books := books.(
        transfers := books.transfers[(id, file) := Transfer(bytes, false)],
        identityFiles := books.identityFiles[source := GetSet(books.identityFiles, source) + {file}],
        attemptCounts := books.attemptCounts[source := Get(books.attemptCounts, source) + 1],
        attemptCharged := books.attemptCharged[id := books.attemptCharged[id] + bytes],
        sourceCharged := books.sourceCharged[source := Get(books.sourceCharged, source) + bytes]);
      return Answer(BudgetOf(books, id));
    }

    method SettleTransfer(id: AttemptId, fileId: FileId, file: RemoteFile, transferred: int) returns (r: Answer)
      requires Valid()
      modifies this`books, this`paid
      ensures Registered(old(books)) && Valid()
      ensures (books, r) == Settle(old(books), id, fileId, file, transferred)
      ensures forall i :: i in old(paid) ==> i in paid && paid[i] == old(paid)[i]
      ensures r.Answer? && (id, fileId) in old(books.transfers) && !old(books.transfers)[(id, fileId)].settled ==>
        id in old(books.running) && ChargedExactly(old(books), books, id, fileId, file, transferred)
    {
      hide Explains, Sound, ChargedExactly;
      ExplainedKnown(books, paid, id);
      SettleExplained(books, paid, id, fileId, file, transferred);
      ExplainedIdentities(books, paid);
      paid := PaidAfter(books, paid, id, fileId, file, transferred);
      if id !in books.running {
        return Refused(NotRunning);
      }
      if transferred < 0 {
        return Refused(NegativeBytes);
      }
      if (id, fileId) !in books.transfers {
        return Refused(NoReservation);
      }
      if !books.transfers[(id, fileId)].settled && Settle(books, id, fileId, file, transferred).1.Answer? {
        SettleCharges(books, id, fileId, file, transferred);
      }
      var reserved := books.transfers[(id, fileId)].bytes;
      if books.transfers[(id, fileId)].settled {
        return Answer(BudgetOf(books, id));
      }
      var source := books.attemptSources[id];
      var attached := (file.identity, false) in books.terminal || (file.identity, true) in books.terminal
        || (file.contentLength.Some? && transferred >= file.contentLength.value);
      var archiveBytes := if !attached then 0
        else if file.contentLength.Some? && file.contentLength.value != 0 then file.contentLength.value
        else transferred;
      var newArchive := attached && file.identity !in books.chargedSources;
      var archiveCharge := if newArchive then archiveBytes else 0;
      var transferBytes := if attached then Max(0, transferred - archiveBytes) else transferred;
      var exact := transferBytes + archiveCharge;
      if exact > reserved {
        return Refused(ExceedsReservation);
      }
      if newArchive {
        books := books.(
          chargedSources := books.chargedSources + {file.identity},
          successCounts := books.successCounts[source := Get(books.successCounts, source) + 1]);
      }
      books := books.(
        transfers := books.transfers[(id, fileId) := Transfer(transferBytes, true)],
        attemptCharged := books.attemptCharged[id := books.attemptCharged[id] + (exact - reserved)],
        sourceCharged := books.sourceCharged[source := Get(books.sourceCharged, source) + (exact - reserved)]);
      return Answer(BudgetOf(books, id));
    }
  }
}
