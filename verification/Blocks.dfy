/**
 What the actions of a block do to the objects, and what a successful `write` has therefore
 committed.
 */
module Blocks {
  import opened Schema
  import opened Store
  import opened Safety
  import opened Accessor
  import opened Runs
  import opened Footprint
  import opened Upsert
  import opened Frame
  import opened Meaning
  import opened Objects
  import opened Setters
  import opened Bulk
  import opened Transaction

  /** What is refused and changes nothing: objects are written, and a transaction is ended, only
      inside a transaction; one is begun only outside; and only a type with a primary key can be
      updated. */
  lemma ActionRefused(c: Context, s: State, a: Action)
    ensures var wrong := (s, Err(WrongTransactionState));
            match a
            case CreateAction(t, value, policy) =>
              && (!s.inWrite ==> RunAction(c, s, a) == wrong)
              && (s.inWrite && !policy.ForceCreate? && !policy.Skip? && t in c.schemas && c.schemas[t].primary.None? ==>
                    RunAction(c, s, a) == (s, Err(MissingPrimaryKey)))
            case SetAction(_, _, _, _, _) => !s.inWrite ==> RunAction(c, s, a) == wrong
            case SetAllAction(_, _, _, _) => !s.inWrite ==> RunAction(c, s, a) == wrong
            case CommitAction(_) => !s.inWrite ==> RunAction(c, s, a) == wrong
            case CancelAction => !s.inWrite ==> RunAction(c, s, a) == wrong
            case BeginAction => s.inWrite ==> RunAction(c, s, a) == wrong
            case WriteAction(_, _) => s.inWrite ==> RunAction(c, s, a) == wrong
            case ThrowAction(code) => RunAction(c, s, a) == (s, Err(UserError(code)))
            case TryAction(_) => true
  {
    hide Create;
  }

  /** What a create does inside a transaction: if it succeeds, every described object with a key
      exists, and a consistent description is true. */
  lemma CreateDoes(c: Context, s: State, t: string, value: Input, policy: CreatePolicy)
    requires s.inWrite && Normal(c, s.view)
    ensures var (s', r) := RunAction(c, s, CreateAction(t, value, policy));
            && s' == s.(view := s'.view)
            && (r.Ok? <==> CreateFor(c, s.view, t, value, policy).res.Ok?)
            && (r.Ok? ==>
                  && Present(c.schemas, s'.view, Feet(c.schemas, t, value))
                  && (Consistent(c.schemas, t, value, policy) && !policy.Skip? ==>
                        exists row: nat :: Holds(c.schemas, Base(policy, s.view), s'.view, t, row, value)))
  {
    hide Create, Holds, Present, Consistent;
    var step := Create(c, s.view, t, value, policy, None);
    CreateUpserts(c, s.view, t, value, policy, None);
    if Consistent(c.schemas, t, value, policy) && !policy.Skip? {
      CreateFulfils(c, s.view, t, value, policy);
    }
  }

  /** What setting a property does inside a transaction: if it succeeds, the property called so, in
      the row given, is what the value stands for. */
  lemma SetDoes(c: Context, s: State, t: string, row: nat, name: string, k: nat, v: Input, policy: CreatePolicy)
    requires s.inWrite && Normal(c, s.view) && t in c.schemas && Called(c.schemas[t], name, k) && !policy.Skip?
    requires var et := c.schemas[t].props[k].ptype.elem;
             && ConsistentInput(c.schemas, et, v, policy)
             && Outside(c, s.view, Pos(t, row, k), InputFeet(c.schemas, et, v), policy)
    ensures var (s', r) := RunAction(c, s, SetAction(t, row, name, v, policy));
            && s' == s.(view := s'.view)
            && (r.Ok? <==> SetPropertyValue(c, s.view, t, row, name, v, policy).res.Ok?)
            && (r.Ok? ==>
                  && row < RowCount(s.view, t) && c.schemas[t].primary != Some(k)
                  && HoldsInput(c.schemas, Base(policy, s.view), s'.view, Pos(t, row, k), c.schemas[t].props[k].ptype,
                                v))
  {
    hide SetPropertyValue, HoldsInput;
    SetterRefuses(c, s.view, t, row, name, v, policy);
    if row < RowCount(s.view, t) && c.schemas[t].primary != Some(k) {
      SetterSets(c, s.view, t, row, name, k, v, policy);
    }
  }

  /** What setting a property of all results does inside a transaction: if it succeeds, every row
      that matched before has in that property what the value stands for. */
  lemma SetAllDoes(c: Context, s: State, t: string, query: Query, name: string, k: nat, v: Input)
    requires s.inWrite && Normal(c, s.view) && t in c.schemas && Called(c.schemas[t], name, k)
    requires var et := c.schemas[t].props[k].ptype.elem;
             && ConsistentInput(c.schemas, et, v, ForceCreate)
             && forall r: nat | r < RowCount(s.view, t) && query(s.view, r) ::
                  Outside(c, s.view, Pos(t, r, k), InputFeet(c.schemas, et, v), ForceCreate)
    ensures var (s', r) := RunAction(c, s, SetAllAction(t, query, name, v));
            && s' == s.(view := s'.view)
            && (r.Ok? <==> SetAll(c, s.view, t, query, name, v).res.Ok?)
            && (r.Ok? ==>
                  && c.schemas[t].primary != Some(k)
                  && forall row: nat | row < RowCount(s.view, t) && query(s.view, row) ::
                       HoldsInput(c.schemas, s.view, s'.view, Pos(t, row, k), c.schemas[t].props[k].ptype, v))
  {
    hide SetAll, HoldsInput, OwnObjects;
    SetAllRefuses(c, s.view, t, query, name, v);
    if c.schemas[t].primary != Some(k) {
      SetAllFulfils(c, s.view, t, query, name, k, v);
    }
  }

  /** A swallowed error ends its own block only: what was performed before it stays. */
  lemma TryDoes(c: Context, s: State, block: seq<Action>)
    ensures RunAction(c, s, TryAction(block)).1 == Ok(())
    ensures exists states, done ::
              Trace(c, s, block, states, done) && RunAction(c, s, TryAction(block)).0 == Last(states)
  {
    hide RunBlock;
    BlockTrace(c, s, block);
    var states :| Trace(c, s, block, states, RunBlock(c, s, block, 0).1) && Last(states) == RunBlock(c, s, block, 0).0;
    assert RunAction(c, s, TryAction(block)).0 == Last(states);
  }

  // ---- What stays until the commit ----

  // Rows and keys are kept from one state of an open transaction to a later one.
  ghost predicate Grows(c: Context, s: State, s': State) {
    Normal(c, s.view) && Normal(c, s'.view) && RowsKept(c.schemas, s.view, s'.view, true) && s'.inWrite == s.inWrite
  }

  lemma GrowsThen(c: Context, a: State, b: State, d: State)
    requires Grows(c, a, b) && Grows(c, b, d)
    ensures Grows(c, a, d)
  {
    RowsKeptTransitive(c.schemas, a.view, b.view, d.view);
  }

  lemma {:induction false} PlainActionGrows(c: Context, s: State, a: Action)
    requires s.inWrite && Normal(c, s.view) && PlainAction(a)
    ensures Grows(c, s, RunAction(c, s, a).0)
    decreases a, 0
  {
    hide WellFormed, ValidSchemas, Create, SetPropertyValue, SetAll, LegalLog, Replay;
    KeptSame(c.schemas, s.view);
    match a
    case CreateAction(t, value, policy) =>
      CreateRuns(c, s.view, t, value, policy, None);
      RunReady(c, s.view, Create(c, s.view, t, value, policy, None));
    case SetAction(t, row, name, v, policy) =>
      SetPropertyValueRuns(c, s.view, t, row, name, v, policy);
      RunReady(c, s.view, SetPropertyValue(c, s.view, t, row, name, v, policy));
    case SetAllAction(t, query, name, v) =>
      SetAllRuns(c, s.view, t, query, name, v);
      RunReady(c, s.view, SetAll(c, s.view, t, query, name, v));
    case TryAction(block) => PlainBlockGrows(c, s, block, 0);
    case ThrowAction(_) =>
  }

  lemma {:induction false} PlainBlockGrows(c: Context, s: State, block: seq<Action>, i: nat)
    requires s.inWrite && Normal(c, s.view) && Plain(block)
    ensures Grows(c, s, RunBlock(c, s, block, i).0)
    decreases block, 0, |block| - i
  {
    hide RunAction, WellFormed, ValidSchemas;
    KeptSame(c.schemas, s.view);
    if i < |block| {
      var r := RunAction(c, s, block[i]);
      PlainActionGrows(c, s, block[i]);
      if r.1.Ok? {
        PlainBlockGrows(c, r.0, block, i + 1);
        GrowsThen(c, s, r.0, RunBlock(c, r.0, block, i + 1).0);
      }
    }
  }

  // Every object with a key that a create of the block describes, from action `i` on, exists.
  ghost predicate AllPresent(c: Context, db: Db, block: seq<Action>, i: nat) {
    forall j | i <= j < |block| && block[j].CreateAction? ::
      Present(c.schemas, db, Feet(c.schemas, block[j].table, block[j].value))
  }

  lemma {:induction false} BlockCreates(c: Context, s: State, block: seq<Action>, i: nat)
    requires s.inWrite && Normal(c, s.view) && Plain(block) && RunBlock(c, s, block, i).1.Ok?
    ensures AllPresent(c, RunBlock(c, s, block, i).0.view, block, i)
    decreases |block| - i
  {
    hide RunAction, Present, WellFormed, ValidSchemas;
    if i < |block| {
      var r := RunAction(c, s, block[i]);
      PlainActionGrows(c, s, block[i]);
      BlockCreates(c, r.0, block, i + 1);
      PlainBlockGrows(c, r.0, block, i + 1);
      match block[i]
      case CreateAction(t, value, policy) =>
        CreateDoes(c, s, t, value, policy);
        PresentKept(c, r.0.view, RunBlock(c, r.0, block, i + 1).0.view, Feet(c.schemas, t, value));
      case _ =>
    }
  }

  /** After a `write` that succeeds, every object with a key that any of the block's creates
      describes is in the file, whatever else the block did to the objects. */
  lemma WriteCommitsCreates(c: Context, s: State, block: seq<Action>, outcome: CommitOutcome)
    requires !s.inWrite && Normal(c, s.file) && Plain(block) && RunWrite(c, s, block, outcome).1.Ok?
    ensures AllPresent(c, RunWrite(c, s, block, outcome).0.file, block, 0)
  {
    hide RunBlock, AllPresent;
    PlainKeeps(c, Opened(s), block, 0);
    BlockCreates(c, Opened(s), block, 0);
  }
}
