/**
 Write transactions: what `Realm.write` does with a block of actions, whatever the block does
 to the objects, to the transaction itself, or with nested calls of `write`.
 */
module Transaction {
  import opened Schema
  import opened Store
  import opened Safety
  import opened Accessor
  import opened Runs
  import opened Upsert

  // Whether saving to disk succeeds and, if not, whether the transaction is still open.
  datatype CommitOutcome = Saved | FailsOpen | FailsClosed

  datatype Event = Began | Committed(db: Db) | Cancelled

  // `view` is what this Realm instance sees, `file` is the last committed version.
  datatype State = State(view: Db, file: Db, inWrite: bool, history: seq<Event>)

  datatype Action =
    | CreateAction(table: string, value: Input, policy: CreatePolicy)
    | SetAction(table: string, row: nat, name: string, v: Input, policy: CreatePolicy)
    | SetAllAction(table: string, query: Query, name: string, v: Input)
    | BeginAction
    | CommitAction(outcome: CommitOutcome)
    | CancelAction
    | ThrowAction(code: int)
    | WriteAction(block: seq<Action>, outcome: CommitOutcome)
    | TryAction(block: seq<Action>)

  function Begin(s: State): (State, Result<()>) {
    if s.inWrite then (s, Err(WrongTransactionState))
    else (State(s.file, s.file, true, s.history + [Began]), Ok(()))
  }

  function Commit(s: State, outcome: CommitOutcome): (State, Result<()>) {
    if !s.inWrite then (s, Err(WrongTransactionState))
    else
      match outcome
      case Saved => (State(s.view, s.view, false, s.history + [Committed(s.view)]), Ok(()))
      case FailsOpen => (s, Err(CommitFailed))
      case FailsClosed => (State(s.file, s.file, false, s.history + [Cancelled]), Err(CommitFailed))
  }

  function Cancel(s: State): (State, Result<()>) {
    if !s.inWrite then (s, Err(WrongTransactionState))
    else (State(s.file, s.file, false, s.history + [Cancelled]), Ok(()))
  }

  // Only a type with a primary key can be updated.
  function CreateFor(c: Context, db: Db, t: string, value: Input, policy: CreatePolicy): Step<nat> {
    if (policy.UpdateAll? || policy.UpdateModified?) && t in c.schemas && c.schemas[t].primary.None? then
      Fail(db, MissingPrimaryKey)
    else Create(c, db, t, value, policy, None)
  }

  function Discard<A>(r: Result<A>): Result<()> {
    if r.Ok? then Ok(()) else Err(r.error)
  }

  function RunAction(c: Context, s: State, a: Action): (State, Result<()>)
    decreases a, 0
  {
    match a
    case CreateAction(t, value, policy) =>
      if !s.inWrite then (s, Err(WrongTransactionState))
      else
        var r := CreateFor(c, s.view, t, value, policy);
        (s.(view := r.db), Discard(r.res))
    case SetAction(t, row, name, v, policy) =>
      if !s.inWrite then (s, Err(WrongTransactionState))
      else
        var r := SetPropertyValue(c, s.view, t, row, name, v, policy);
        (s.(view := r.db), r.res)
    case SetAllAction(t, query, name, v) =>
      if !s.inWrite then (s, Err(WrongTransactionState))
      else
        var r := SetAll(c, s.view, t, query, name, v);
        (s.(view := r.db), r.res)
    case BeginAction => Begin(s)
    case CommitAction(outcome) => Commit(s, outcome)
    case CancelAction => Cancel(s)
    case ThrowAction(code) => (s, Err(UserError(code)))
    case WriteAction(block, outcome) => RunWrite(c, s, block, outcome)
    case TryAction(block) => (RunBlock(c, s, block, 0).0, Ok(()))
  }

  function RunBlock(c: Context, s: State, block: seq<Action>, i: nat): (State, Result<()>)
    decreases block, 0, |block| - i
  {
    if i >= |block| then (s, Ok(()))
    else
      var r := RunAction(c, s, block[i]);
      if r.1.Err? then r else RunBlock(c, r.0, block, i + 1)
  }

  function RunWrite(c: Context, s: State, block: seq<Action>, outcome: CommitOutcome): (State, Result<()>)
    decreases block, 1
  {
    var begun := Begin(s);
    if begun.1.Err? then begun
    else
      var done := RunBlock(c, begun.0, block, 0);
      if done.1.Err? then (if done.0.inWrite then Cancel(done.0).0 else done.0, done.1)
      else if done.0.inWrite then Commit(done.0, outcome)
      else done
  }

  // ---- A block performs its actions ----

  // The states that a block goes through, one after each action it performs: all of its actions if
  // none fails, and otherwise those up to and including the first that fails, whose error is `r`.
  ghost predicate Trace(c: Context, s: State, block: seq<Action>, states: seq<State>, r: Result<()>) {
    && 1 <= |states| <= |block| + 1 && states[0] == s
    && (forall j: nat | j + 1 < |states| :: states[j + 1] == RunAction(c, states[j], block[j]).0)
    && (forall j: nat | j + 2 < |states| :: RunAction(c, states[j], block[j]).1.Ok?)
    && (if |states| == 1 then block == [] && r == Ok(())
        else
          var last := RunAction(c, states[|states| - 2], block[|states| - 2]).1;
          r == last && (r.Ok? ==> |states| == |block| + 1))
  }

  function Last(states: seq<State>): State
    requires states != []
  {
    states[|states| - 1]
  }

  lemma {:induction false} BlockTrace(c: Context, s: State, block: seq<Action>)
    ensures exists states :: Trace(c, s, block, states, RunBlock(c, s, block, 0).1)
                             && Last(states) == RunBlock(c, s, block, 0).0
  {
    var states := TraceFrom(c, s, block, 0);
    assert block[0..] == block;
  }

  lemma {:induction false} TraceFrom(c: Context, s: State, block: seq<Action>, i: nat) returns (states: seq<State>)
    requires i <= |block|
    ensures Trace(c, s, block[i..], states, RunBlock(c, s, block, i).1) && Last(states) == RunBlock(c, s, block, i).0
    decreases |block| - i
  {
    hide RunAction;
    states := [s];
    if i < |block| {
      var a := RunAction(c, s, block[i]);
      if a.1.Err? {
        states := [s, a.0];
      } else {
        var rest := TraceFrom(c, a.0, block, i + 1);
        states := [s] + rest;
        TraceStep(c, s, block, i, rest, RunBlock(c, a.0, block, i + 1).1);
      }
    }
  }

  lemma TraceStep(c: Context, s: State, block: seq<Action>, i: nat, rest: seq<State>, r: Result<()>)
    requires i < |block| && RunAction(c, s, block[i]).1.Ok?
    requires Trace(c, RunAction(c, s, block[i]).0, block[i + 1..], rest, r)
    ensures Trace(c, s, block[i..], [s] + rest, r)
  {
    hide RunAction;
    var states := [s] + rest;
    var tail := block[i..];
    assert forall j: nat | 0 < j < |tail| :: tail[j] == block[i + 1..][j - 1];
    forall j: nat | j + 1 < |states| ensures states[j + 1] == RunAction(c, states[j], tail[j]).0 {
      if j > 0 { assert states[j] == rest[j - 1] && states[j + 1] == rest[j - 1 + 1]; }
    }
    forall j: nat | j + 2 < |states| ensures RunAction(c, states[j], tail[j]).1.Ok? {
      if j > 0 { assert states[j] == rest[j - 1] && j - 1 + 2 < |rest|; }
    }
    if |rest| == 1 {
      assert |tail| == 1;
      var u := RunAction(c, s, tail[0]).1.value;
      assert u == ();
    } else {
      assert states[|states| - 2] == rest[|rest| - 2] && tail[|states| - 2] == block[i + 1..][|rest| - 2];
    }
  }

  // The state in which the block of a `write` starts.
  function Opened(s: State): State {
    State(s.file, s.file, true, s.history + [Began])
  }

  // ---- What every run keeps ----

  // Whether a transaction is open after the events; none if they do not alternate.
  function OpenAfter(h: seq<Event>): Option<bool> {
    if h == [] then Some(false)
    else
      var before := OpenAfter(h[..|h| - 1]);
      if h[|h| - 1].Began? then (if before == Some(false) then Some(true) else None)
      else (if before == Some(true) then Some(false) else None)
  }

  function LastCommitted(h: seq<Event>, first: Db): Db {
    if h == [] then first
    else if h[|h| - 1].Committed? then h[|h| - 1].db
    else LastCommitted(h[..|h| - 1], first)
  }

  // Transactions begin and end in turn, the file holds what was committed last, and outside
  // of a transaction nothing but the file is seen.
  ghost predicate Bracketed(s: State, first: Db) {
    && OpenAfter(s.history) == Some(s.inWrite)
    && s.file == LastCommitted(s.history, first)
    && (!s.inWrite ==> s.view == s.file)
  }

  ghost predicate Intact(c: Context, db: Db) {
    Normal(c, db) && UniqueKeys(c.schemas, db)
  }

  // Every version committed so far is intact and keeps the rows and keys of the one before it.
  ghost predicate Versions(c: Context, h: seq<Event>, first: Db) {
    forall i | 0 <= i < |h| && h[i].Committed? ::
      Intact(c, h[i].db) && RowsKept(c.schemas, LastCommitted(h[..i], first), h[i].db, true)
  }

  ghost predicate Sound(c: Context, s: State, first: Db) {
    && Bracketed(s, first) && Versions(c, s.history, first)
    && Intact(c, s.view) && Intact(c, s.file)
    && RowsKept(c.schemas, s.file, s.view, true)
  }

  // How one run follows another.
  ghost predicate Follows(c: Context, s: State, s': State, first: Db) {
    && Sound(c, s', first)
    && s.history <= s'.history
    && RowsKept(c.schemas, s.file, s'.file, true)
  }

  lemma FollowsTransitive(c: Context, a: State, b: State, d: State, first: Db)
    requires Follows(c, a, b, first) && Follows(c, b, d, first)
    ensures Follows(c, a, d, first)
  {
    RowsKeptTransitive(c.schemas, a.file, b.file, d.file);
  }

  lemma OneMoreEvent(h: seq<Event>, e: Event, first: Db)
    ensures OpenAfter(h + [e]) ==
              if e.Began? then (if OpenAfter(h) == Some(false) then Some(true) else None)
              else (if OpenAfter(h) == Some(true) then Some(false) else None)
    ensures LastCommitted(h + [e], first) == if e.Committed? then e.db else LastCommitted(h, first)
  {
    assert (h + [e])[..|h|] == h;
  }

  lemma OneMoreVersion(c: Context, h: seq<Event>, e: Event, first: Db)
    requires Versions(c, h, first)
    requires e.Committed? ==> Intact(c, e.db) && RowsKept(c.schemas, LastCommitted(h, first), e.db, true)
    ensures Versions(c, h + [e], first)
  {
    hide Intact, RowsKept, LastCommitted;
    forall i | 0 <= i < |h + [e]| && (h + [e])[i].Committed?
      ensures Intact(c, (h + [e])[i].db)
              && RowsKept(c.schemas, LastCommitted((h + [e])[..i], first), (h + [e])[i].db, true)
    {
      assert (h + [e])[..i] == h[..i];
      assert i == |h| ==> h[..i] == h;
    }
  }

  lemma EndsFollow(c: Context, s: State, outcome: CommitOutcome, first: Db)
    requires Sound(c, s, first)
    ensures Follows(c, s, Begin(s).0, first) && Follows(c, s, Commit(s, outcome).0, first)
            && Follows(c, s, Cancel(s).0, first)
  {
    hide WellFormed, ValidSchemas, UniqueKeys, Versions;
    OneMoreEvent(s.history, Began, first);
    OneMoreEvent(s.history, Committed(s.view), first);
    OneMoreEvent(s.history, Cancelled, first);
    OneMoreVersion(c, s.history, Began, first);
    OneMoreVersion(c, s.history, Committed(s.view), first);
    OneMoreVersion(c, s.history, Cancelled, first);
  }

  lemma StepFollows<A>(c: Context, s: State, r: Step<A>, first: Db)
    requires Sound(c, s, first) && s.inWrite && Run(c, s.view, r)
    ensures Follows(c, s, s.(view := r.db), first)
  {
    RunReady(c, s.view, r);
    LogKeepsUniqueKeys(c, s.view, r.log);
    RowsKeptTransitive(c.schemas, s.file, s.view, r.db);
  }

  lemma {:induction false} ActionFollows(c: Context, s: State, a: Action, first: Db)
    requires Sound(c, s, first)
    ensures Follows(c, s, RunAction(c, s, a).0, first)
    decreases a, 0
  {
    hide WellFormed, ValidSchemas, UniqueKeys, Create, SetPropertyValue, SetAll, LegalLog, Replay, OpenAfter,
        LastCommitted;
    match a
    case CreateAction(t, value, policy) =>
      CreateRuns(c, s.view, t, value, policy, None);
      RunDone(c, s.view, Fail<nat>(s.view, MissingPrimaryKey));
      if s.inWrite { StepFollows(c, s, CreateFor(c, s.view, t, value, policy), first); }
    case SetAction(t, row, name, v, policy) =>
      SetPropertyValueRuns(c, s.view, t, row, name, v, policy);
      if s.inWrite { StepFollows(c, s, SetPropertyValue(c, s.view, t, row, name, v, policy), first); }
    case SetAllAction(t, query, name, v) =>
      SetAllRuns(c, s.view, t, query, name, v);
      if s.inWrite { StepFollows(c, s, SetAll(c, s.view, t, query, name, v), first); }
    case BeginAction => EndsFollow(c, s, Saved, first);
    case CommitAction(outcome) => EndsFollow(c, s, outcome, first);
    case CancelAction => EndsFollow(c, s, Saved, first);
    case ThrowAction(code) =>
    case WriteAction(block, outcome) => WriteFollows(c, s, block, outcome, first);
    case TryAction(block) => BlockFollows(c, s, block, 0, first);
  }

  lemma {:induction false} BlockFollows(c: Context, s: State, block: seq<Action>, i: nat, first: Db)
    requires Sound(c, s, first)
    ensures Follows(c, s, RunBlock(c, s, block, i).0, first)
    decreases block, 0, |block| - i
  {
    hide RunAction, WellFormed, ValidSchemas, UniqueKeys, Bracketed;
    if i < |block| {
      var r := RunAction(c, s, block[i]);
      ActionFollows(c, s, block[i], first);
      if r.1.Ok? {
        BlockFollows(c, r.0, block, i + 1, first);
        FollowsTransitive(c, s, r.0, RunBlock(c, r.0, block, i + 1).0, first);
      }
    }
  }

  lemma {:induction false} WriteFollows(c: Context, s: State, block: seq<Action>, outcome: CommitOutcome, first: Db)
    requires Sound(c, s, first)
    ensures Follows(c, s, RunWrite(c, s, block, outcome).0, first)
    decreases block, 1
  {
    hide RunBlock, Begin, Commit, Cancel, WellFormed, ValidSchemas, UniqueKeys, RowsKept, Bracketed;
    var begun := Begin(s);
    EndsFollow(c, s, outcome, first);
    if begun.1.Ok? {
      var done := RunBlock(c, begun.0, block, 0);
      BlockFollows(c, begun.0, block, 0, first);
      EndsFollow(c, done.0, outcome, first);
      FollowsTransitive(c, s, begun.0, done.0, first);
      FollowsTransitive(c, s, done.0, Commit(done.0, outcome).0, first);
      FollowsTransitive(c, s, done.0, Cancel(done.0).0, first);
    }
  }

  // ---- Atomicity ----

  // The block leaves the transaction alone.
  predicate Plain(block: seq<Action>) {
    forall i | 0 <= i < |block| :: PlainAction(block[i])
  }

  predicate PlainAction(a: Action) {
    match a
    case BeginAction => false
    case CommitAction(_) => false
    case CancelAction => false
    case WriteAction(_, _) => false
    case TryAction(block) => Plain(block)
    case _ => true
  }

  lemma {:induction false} PlainActionKeeps(c: Context, s: State, a: Action)
    requires PlainAction(a)
    ensures var s' := RunAction(c, s, a).0;
            s'.file == s.file && s'.inWrite == s.inWrite && s'.history == s.history
    decreases a, 0
  {
    hide Create, SetPropertyValue, SetAll;
    if a.TryAction? {
      PlainKeeps(c, s, a.block, 0);
    }
  }

  lemma {:induction false} PlainKeeps(c: Context, s: State, block: seq<Action>, i: nat)
    requires Plain(block)
    ensures var s' := RunBlock(c, s, block, i).0;
            s'.file == s.file && s'.inWrite == s.inWrite && s'.history == s.history
    decreases block, 0, |block| - i
  {
    hide RunAction;
    if i < |block| {
      PlainActionKeeps(c, s, block[i]);
      PlainKeeps(c, RunAction(c, s, block[i]).0, block, i + 1);
    }
  }

  /** A block that leaves the transaction alone is all or nothing. It is performed from the last
      committed version on; if none of its actions fails and the commit succeeds, the file is what
      the last action left. If anything fails the file is unchanged, and unless it was the commit
      that failed and left the transaction open, nothing of the block is seen any more. */
  lemma PlainWriteIsAtomic(c: Context, s: State, block: seq<Action>, outcome: CommitOutcome)
    requires !s.inWrite && Plain(block)
    ensures exists states, done :: Trace(c, Opened(s), block, states, done)
                                   && AllOrNothing(s, RunWrite(c, s, block, outcome), Last(states).view, done, outcome)
  {
    BlockTrace(c, Opened(s), block);
    PlainKeeps(c, Opened(s), block, 0);
    assert Begin(s).0 == Opened(s);
    var states :| Trace(c, Opened(s), block, states, RunBlock(c, Opened(s), block, 0).1)
                  && Last(states) == RunBlock(c, Opened(s), block, 0).0;
    assert s.history + [Began] + [Cancelled] == s.history + [Began, Cancelled];
    assert s.history + [Began] + [Committed(Last(states).view)] == s.history + [Began, Committed(Last(states).view)];
    assert AllOrNothing(s, RunWrite(c, s, block, outcome), Last(states).view, RunBlock(c, Opened(s), block, 0).1,
                        outcome);
  }

  // What `write` ends with, where the block has made `view` of the file with result `done`.
  predicate AllOrNothing(s: State, end: (State, Result<()>), view: Db, done: Result<()>, outcome: CommitOutcome) {
    var failed := State(s.file, s.file, false, s.history + [Began, Cancelled]);
    if done.Err? then end == (failed, done)
    else
      match outcome
      case Saved => end == (State(view, view, false, s.history + [Began, Committed(view)]), Ok(()))
      case FailsOpen => end == (State(view, s.file, true, s.history + [Began]), Err(CommitFailed))
      case FailsClosed => end == (failed, Err(CommitFailed))
  }

  /** Whatever the block does, after `write` no transaction is open, except after a failed commit
      that leaves it open. A failing block leaves the file at the last version that was committed
      before the failure. A block that ended the transaction itself is left as it is: nothing is
      committed or cancelled a second time. */
  lemma WriteEndsOnce(c: Context, s: State, block: seq<Action>, outcome: CommitOutcome, first: Db)
    requires Sound(c, s, first) && !s.inWrite
    ensures exists states, done :: Trace(c, Opened(s), block, states, done)
                                   && EndsOnce(c, s, RunWrite(c, s, block, outcome), Last(states), done, outcome, first)
  {
    hide RunBlock, WellFormed, ValidSchemas, UniqueKeys, RowsKept, OpenAfter, LastCommitted;
    WriteFollows(c, s, block, outcome, first);
    EndsFollow(c, s, outcome, first);
    BlockFollows(c, Begin(s).0, block, 0, first);
    BlockTrace(c, Opened(s), block);
    var states :| Trace(c, Opened(s), block, states, RunBlock(c, Opened(s), block, 0).1)
                  && Last(states) == RunBlock(c, Opened(s), block, 0).0;
    assert EndsOnce(c, s, RunWrite(c, s, block, outcome), Last(states), RunBlock(c, Opened(s), block, 0).1, outcome,
                    first);
  }

  ghost predicate EndsOnce(c: Context, s: State, end: (State, Result<()>), last: State, done: Result<()>,
          outcome: CommitOutcome, first: Db) {
    && Follows(c, s, end.0, first)
    && (end.0.inWrite ==> end.1 == Err(CommitFailed) && outcome.FailsOpen?)
    && (!end.0.inWrite ==> end.0.view == end.0.file)
    && (end.1.Err? ==> end.0.file == LastCommitted(last.history, first))
    && (!last.inWrite ==> end == (last, done))
    && (done.Err? ==> end.1 == done)
  }

  /** Outside migrations, every version that is ever committed, by any sequence of actions and at
      any depth of nested blocks, has unique keys and valid links, and keeps all rows and keys of
      the version before it; and so does what is seen of the file at the end. */
  lemma EveryVersionIsIntact(c: Context, first: Db, actions: seq<Action>)
    requires Intact(c, first)
    ensures var s := RunBlock(c, State(first, first, false, []), actions, 0).0;
            && Versions(c, s.history, first)
            && Intact(c, s.file) && Intact(c, s.view) && RowsKept(c.schemas, s.file, s.view, true)
            && OpenAfter(s.history) == Some(s.inWrite) && s.file == LastCommitted(s.history, first)
  {
    assert RowsKept(c.schemas, first, first, true);
    BlockFollows(c, State(first, first, false, []), actions, 0, first);
  }

  /** Hence a version keeps the rows and keys of all versions before it. */
  lemma {:induction false} LaterVersionKeeps(c: Context, h: seq<Event>, first: Db, i: nat, j: nat)
    requires Versions(c, h, first) && i < j <= |h| && h[i].Committed?
    ensures RowsKept(c.schemas, h[i].db, LastCommitted(h[..j], first), true)
    ensures j < |h| && h[j].Committed? ==> RowsKept(c.schemas, h[i].db, h[j].db, true)
    decreases j
  {
    hide RowsKept, Intact;
    assert h[..j][..j - 1] == h[..j - 1] && h[..j][j - 1] == h[j - 1];
    if i == j - 1 {
      KeptSame(c.schemas, h[i].db);
    } else {
      LaterVersionKeeps(c, h, first, i, j - 1);
    }
    if j < |h| && h[j].Committed? {
      RowsKeptTransitive(c.schemas, h[i].db, LastCommitted(h[..j], first), h[j].db);
    }
  }

  lemma KeptSame(schemas: Schemas, db: Db)
    ensures RowsKept(schemas, db, db, true)
  {
  }

  // ---- A create that fails half way ----

  // Whether the loop refuses a new object for want of property `k`.
  predicate Lacks(os: ObjectSchema, value: Input, k: nat) {
    && k < |os.props| && !os.IsPrimary(k) && value.Dict? && !value.allowMissing
    && os.props[k].name !in value.fields && os.props[k].default in {None, Some(NullInput)}
    && os.props[k].ptype.Single? && !os.props[k].ptype.Nullable()
  }

  // The object type with its first `k` properties.
  function FirstProps(os: ObjectSchema, k: nat): ObjectSchema
    requires k <= |os.props|
  {
    os.(props := os.props[..k])
  }

  lemma {:induction false} PopulateStops(c: Context, db: Db, t: string, os: ObjectSchema, slot: Slot, value: Input,
          policy: CreatePolicy, i: nat, k: nat)
    requires i <= k && Lacks(os, value, k) && slot.created
    ensures var before := Populate(c, db, t, FirstProps(os, k), slot, value, policy, i);
            Populate(c, db, t, os, slot, value, policy, i)
            == Step(before.db, before.log, if before.res.Err? then before.res else Err(MissingPropertyValue))
    decreases k - i
  {
    hide SetProperty;
    if i == k {
      assert PopulateOne(c, db, t, os, slot, value, policy, k) == Fail(db, MissingPropertyValue);
    } else {
      var s := PopulateOne(c, db, t, os, slot, value, policy, i);
      assert s == PopulateOne(c, db, t, FirstProps(os, k), slot, value, policy, i);
      if s.res.Ok? {
        PopulateStops(c, s.db, t, os, slot, value, policy, i + 1, k);
      }
    }
  }

  /** A create that adds a row and lacks a required property fails, after the row and all earlier
      properties were written: with the error of an earlier property, or else for the missing one.
      Inside `write` all of it is gone again. */
  lemma PartialCreateIsUndone(c: Context, s: State, t: string, value: Input, policy: CreatePolicy, k: nat,
          outcome: CommitOutcome)
    requires !s.inWrite && Normal(c, s.file) && t in c.schemas && Lacks(c.schemas[t], value, k)
    requires c.schemas[t].primary.None? ==> policy.ForceCreate? || policy.Skip?
    requires var slot := GetOrAddRow(c, s.file, t, c.schemas[t], value, policy, None).res;
             slot.Ok? && slot.value.created
    ensures var os := c.schemas[t];
            var slot := GetOrAddRow(c, s.file, t, os, value, policy, None);
            var before := Populate(c, slot.db, t, FirstProps(os, k), slot.res.value, value, policy, 0);
            var half := CreateFor(c, s.file, t, value, policy);
            var (s', r) := RunWrite(c, s, [CreateAction(t, value, policy)], outcome);
            && half.res == Err(if before.res.Err? then before.res.error else MissingPropertyValue)
            && half.db == before.db && half.log == slot.log + before.log
            && RowCount(half.db, t) > RowCount(s.file, t)
            && r == Err(half.res.error) && s'.file == s'.view == s.file && !s'.inWrite
            && s'.history == s.history + [Began, Cancelled]
  {
    hide Populate, WellFormed, ValidSchemas, LegalLog, Replay;
    var os := c.schemas[t];
    var slot := GetOrAddRow(c, s.file, t, os, value, policy, None);
    PopulateStops(c, slot.db, t, os, slot.res.value, value, policy, 0, k);
    GetOrAddRowRuns(c, s.file, t, value, policy, None);
    RunReady(c, s.file, slot);
    PopulateRuns(c, slot.db, t, slot.res.value, value, policy, 0);
    var all := Populate(c, slot.db, t, os, slot.res.value, value, policy, 0);
    RunReady(c, slot.db, all);
    RowAdded(c, s.file, t, value, policy);
    assert RowCount(slot.db, t) <= RowCount(all.db, t);
    var block := [CreateAction(t, value, policy)];
    assert RunBlock(c, Begin(s).0, block, 0).1.Err?;
    PlainWriteIsAtomic(c, s, block, outcome);
  }

  lemma RowAdded(c: Context, db: Db, t: string, value: Input, policy: CreatePolicy)
    requires t in c.schemas && t in db
    requires var slot := GetOrAddRow(c, db, t, c.schemas[t], value, policy, None).res;
             slot.Ok? && slot.value.created
    ensures RowCount(GetOrAddRow(c, db, t, c.schemas[t], value, policy, None).db, t) == RowCount(db, t) + 1
  {
  }
}
