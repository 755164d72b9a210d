/**
 A Realm instance: write transactions over the tables of a file, in imperative form.
 */
module Realm {
  import opened Schema
  import opened Store
  import opened Accessor
  import opened Transaction
  import Group

  class Realm {
    const group: Group.Group
    var file: Db
    var inWrite: bool
    ghost var history: seq<Event>

    ghost predicate Valid()
      reads this, group
    {
      group.tables.Keys == group.c.schemas.Keys && file.Keys == group.c.schemas.Keys
    }

    ghost function Current(): State
      reads this, group
    {
      State(group.tables, file, inWrite, history)
    }

    constructor (c: Context, file: Db)
      requires file.Keys == c.schemas.Keys
      ensures Valid() && fresh(group) && group.c == c && Current() == State(file, file, false, [])
    {
      this.group := new Group.Group(c, file);
      this.file, inWrite, history := file, false, [];
    }

    // ---- Transactions ----

    method BeginWrite() returns (res: Result<()>)
      requires Valid()
      modifies this, group
      ensures Valid() && (Current(), res) == Begin(old(Current()))
    {
      if inWrite {
        return Err(WrongTransactionState);
      }
      group.tables := file;
      inWrite := true;
      history := history + [Began];
      res := Ok(());
    }

    method CommitWrite(outcome: CommitOutcome) returns (res: Result<()>)
      requires Valid()
      modifies this, group
      ensures Valid() && (Current(), res) == Commit(old(Current()), outcome)
    {
      if !inWrite {
        return Err(WrongTransactionState);
      }
      match outcome {
        case Saved =>
          file := group.tables;
          inWrite := false;
          history := history + [Committed(file)];
          res := Ok(());
        case FailsOpen =>
          res := Err(CommitFailed);
        case FailsClosed =>
          group.tables := file;
          inWrite := false;
          history := history + [Cancelled];
          res := Err(CommitFailed);
      }
    }

    method CancelWrite() returns (res: Result<()>)
      requires Valid()
      modifies this, group
      ensures Valid() && (Current(), res) == Cancel(old(Current()))
    {
      if !inWrite {
        return Err(WrongTransactionState);
      }
      group.tables := file;
      inWrite := false;
      history := history + [Cancelled];
      res := Ok(());
    }

    method WriteBlock(block: seq<Action>, outcome: CommitOutcome) returns (res: Result<()>)
      requires Valid()
      modifies this, group
      ensures Valid() && (Current(), res) == RunWrite(group.c, old(Current()), block, outcome)
      decreases block, 1
    {
      hide RunBlock;
      res := BeginWrite();
      if res.Err? {
        return;
      }
      res := RunAll(block);
      if res.Err? {
        if inWrite {
          var _ := CancelWrite();
        }
        return;
      }
      if inWrite {
        res := CommitWrite(outcome);
      }
    }

    // ---- Blocks ----

    method RunAll(block: seq<Action>) returns (res: Result<()>)
      requires Valid()
      modifies this, group
      ensures Valid() && (Current(), res) == RunBlock(group.c, old(Current()), block, 0)
      decreases block, 0
    {
      hide RunAction;
      var i := 0;
      while i < |block|
        invariant i <= |block| && Valid()
        invariant RunBlock(group.c, old(Current()), block, 0) == RunBlock(group.c, Current(), block, i)
      {
        res := Perform(block[i]);
        if res.Err? {
          return;
        }
        i := i + 1;
      }
      res := Ok(());
    }

    method Perform(a: Action) returns (res: Result<()>)
      requires Valid()
      modifies this, group
      ensures Valid() && (Current(), res) == RunAction(group.c, old(Current()), a)
      decreases a, 0
    {
      hide Create, SetPropertyValue, SetAll, RunBlock, RunWrite;
      match a {
        case CreateAction(t, value, policy) => res := CreateObject(t, value, policy);
        case SetAction(t, row, name, v, policy) =>
          if !inWrite {
            return Err(WrongTransactionState);
          }
          res := group.SetObjectProperty(t, row, name, v, policy);
        case SetAllAction(t, query, name, v) =>
          if !inWrite {
            return Err(WrongTransactionState);
          }
          res := group.SetResultsProperty(t, query, name, v);
        case BeginAction => res := BeginWrite();
        case CommitAction(outcome) => res := CommitWrite(outcome);
        case CancelAction => res := CancelWrite();
        case ThrowAction(code) => res := Err(UserError(code));
        case WriteAction(block, outcome) => res := WriteBlock(block, outcome);
        case TryAction(block) =>
          var _ := RunAll(block);
          res := Ok(());
      }
    }

    method CreateObject(t: string, value: Input, policy: CreatePolicy) returns (res: Result<()>)
      requires Valid()
      modifies this, group
      ensures Valid() && (Current(), res) == RunAction(group.c, old(Current()), CreateAction(t, value, policy))
    {
      hide Create;
      if !inWrite {
        return Err(WrongTransactionState);
      }
      if (policy.UpdateAll? || policy.UpdateModified?) && t in group.c.schemas && group.c.schemas[t].primary.None? {
        return Err(MissingPrimaryKey);
      }
      var r := group.CreateObject(t, value, policy, None);
      res := Discard(r);
    }
  }
}
