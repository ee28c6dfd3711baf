/** The slice of a ledger transaction a contract sees: input and output
    states, and the commands with their signers. Filters by state type and by
    command family stand for the runtime's `inputsOfType`, `outputsOfType`
    and `select` helpers. */
module Ledger {
  import opened Deposits

  /** A fungible cash token held by `owner`. */
  datatype CashState = CashState(amount: Amount, owner: Party)

  /** A ledger state as a contract sees it: a deposit record, a cash token,
      or a state of some other contract. */
  datatype LedgerState =
    | DepositOf(deposit: DepositState)
    | CashOf(cash: CashState)
    | OtherState(contract: string)

  /** A command whose value is either of the contract's own family `C` or
      of some other family (cash movements, for instance). */
  datatype CommandEntry<C> =
    | Ours(value: C, signers: seq<PublicKey>)
    | Foreign(name: string, foreignSigners: seq<PublicKey>)

  datatype Transaction<C> = Transaction(
    inputs: seq<LedgerState>,
    outputs: seq<LedgerState>,
    commands: seq<CommandEntry<C>>)

  /** What made a transaction invalid: a rule of the contract, a list that
      was empty where its first element was taken, a required value that was
      absent, or not exactly one command of the family looked for. */
  datatype Violation<R> =
    | Requirement(rule: R)
    | EmptyList
    | AbsentValue
    | CommandCount(found: nat)

  datatype Verdict<R> = Accepted | Rejected(violation: Violation<R>)

  /** The positions of `xs` whose element satisfies `p`. */
  function Positions<T>(xs: seq<T>, p: T -> bool): set<nat>
  {
    set k: nat | k < |xs| && p(xs[k])
  }

  /** Position `k` holds the first element of `xs` that satisfies `p`. */
  predicate FirstAt<T>(xs: seq<T>, p: T -> bool, k: nat)
  {
    k < |xs| && p(xs[k]) && forall j | 0 <= j < k :: !p(xs[j])
  }

  /** Appending one element adds a position exactly when it satisfies `p`;
      the first such position of the prefix stays the first, and if the
      prefix has none the appended element is the first. */
  lemma PositionsSnoc<T>(xs: seq<T>, p: T -> bool)
    requires |xs| > 0
    ensures var n := |xs| - 1;
      |Positions(xs, p)| == |Positions(xs[..n], p)| + (if p(xs[n]) then 1 else 0)
    ensures var n := |xs| - 1;
      forall k: nat | FirstAt(xs[..n], p, k) :: FirstAt(xs, p, k)
    ensures var n := |xs| - 1;
      |Positions(xs[..n], p)| == 0 && p(xs[n]) ==> FirstAt(xs, p, n)
  {
    var n := |xs| - 1;
    var before := Positions(xs[..n], p);
    assert forall k | 0 <= k < n :: xs[..n][k] == xs[k];
    assert Positions(xs, p) == before + (if p(xs[n]) then {n} else {});
    assert n !in before;
    if |before| == 0 {
      forall j | 0 <= j < n
        ensures !p(xs[j])
      {
        assert j !in before;
      }
    }
  }

  predicate IsDeposit(s: LedgerState) { s.DepositOf? }
  predicate IsCash(s: LedgerState) { s.CashOf? }
  predicate IsOurs<C>(c: CommandEntry<C>) { c.Ours? }

  /** The deposit records among `states`, in order. */
  function DepositsIn(states: seq<LedgerState>): (r: seq<DepositState>)
    ensures |r| <= |states|
    ensures forall d :: d in r <==> DepositOf(d) in states
    ensures (forall k | 0 <= k < |states| :: !states[k].DepositOf?) <==> |r| == 0
  {
    if |states| == 0 then []
    else
      var n := |states| - 1;
      var prefix := DepositsIn(states[..n]);
      assert states == states[..n] + [states[n]];
      if states[n].DepositOf? then prefix + [states[n].deposit] else prefix
  }

  /** The cash tokens among `states`, in order. */
  function CashIn(states: seq<LedgerState>): (r: seq<CashState>)
    ensures |r| <= |states|
    ensures forall c :: c in r <==> CashOf(c) in states
    ensures (forall k | 0 <= k < |states| :: !states[k].CashOf?) <==> |r| == 0
  {
    if |states| == 0 then []
    else
      var n := |states| - 1;
      var prefix := CashIn(states[..n]);
      assert states == states[..n] + [states[n]];
      if states[n].CashOf? then prefix + [states[n].cash] else prefix
  }

  /** The values of the commands of the family `C`, in order; commands of
      other families are skipped. */
  function Selected<C>(commands: seq<CommandEntry<C>>): (r: seq<C>)
    ensures |r| <= |commands|
    ensures forall k | 0 <= k < |commands| && commands[k].Ours? :: commands[k].value in r
    ensures forall x | x in r :: exists k | 0 <= k < |commands| :: commands[k].Ours? && commands[k].value == x
  {
    if |commands| == 0 then []
    else
      var n := |commands| - 1;
      var prefix := Selected(commands[..n]);
      assert commands == commands[..n] + [commands[n]];
      assert forall x | x in prefix :: exists k | 0 <= k < |commands| :: commands[k].Ours? && commands[k].value == x by {
        forall x | x in prefix
          ensures exists k | 0 <= k < |commands| :: commands[k].Ours? && commands[k].value == x
        {
          var k :| 0 <= k < n && commands[..n][k].Ours? && commands[..n][k].value == x;
          assert commands[k] == commands[..n][k];
        }
      }
      if commands[n].Ours? then prefix + [commands[n].value] else prefix
  }

  /** The deposit filter yields one record per position holding a deposit,
      and its first record is the one at the least such position: what
      `size` and `first()` on the filtered list observe. */
  lemma {:induction false} DepositsInByPosition(states: seq<LedgerState>)
    ensures |DepositsIn(states)| == |Positions(states, IsDeposit)|
    ensures |DepositsIn(states)| > 0 ==>
      exists k: nat :: FirstAt(states, IsDeposit, k) && states[k] == DepositOf(DepositsIn(states)[0])
  {
    if |states| > 0 {
      var n := |states| - 1;
      var prefix := DepositsIn(states[..n]);
      DepositsInByPosition(states[..n]);
      PositionsSnoc(states, IsDeposit);
      if |prefix| > 0 {
        var k: nat :| FirstAt(states[..n], IsDeposit, k) && states[..n][k] == DepositOf(prefix[0]);
        assert FirstAt(states, IsDeposit, k);
      } else if states[n].DepositOf? {
        assert FirstAt(states, IsDeposit, n);
      }
    }
  }

  /** The cash filter yields one token per position holding cash, and its
      first token is the one at the least such position. */
  lemma {:induction false} CashInByPosition(states: seq<LedgerState>)
    ensures |CashIn(states)| == |Positions(states, IsCash)|
    ensures |CashIn(states)| > 0 ==>
      exists k: nat :: FirstAt(states, IsCash, k) && states[k] == CashOf(CashIn(states)[0])
  {
    if |states| > 0 {
      var n := |states| - 1;
      var prefix := CashIn(states[..n]);
      CashInByPosition(states[..n]);
      PositionsSnoc(states, IsCash);
      if |prefix| > 0 {
        var k: nat :| FirstAt(states[..n], IsCash, k) && states[..n][k] == CashOf(prefix[0]);
        assert FirstAt(states, IsCash, k);
      } else if states[n].CashOf? {
        assert FirstAt(states, IsCash, n);
      }
    }
  }

  /** Selection yields one value per position holding a command of the
      family, so "exactly one command" is exactly one such position; its
      first value is the command at the least such position. */
  lemma {:induction false} SelectedByPosition<C>(commands: seq<CommandEntry<C>>)
    ensures |Selected(commands)| == |Positions(commands, IsOurs)|
    ensures |Selected(commands)| > 0 ==>
      exists k: nat :: FirstAt(commands, IsOurs, k) && commands[k].value == Selected(commands)[0]
  {
    if |commands| > 0 {
      var n := |commands| - 1;
      var prefix := Selected(commands[..n]);
      SelectedByPosition(commands[..n]);
      PositionsSnoc(commands, IsOurs);
      if |prefix| > 0 {
        var k: nat :| FirstAt(commands[..n], IsOurs, k) && commands[..n][k].value == prefix[0];
        assert FirstAt(commands, IsOurs, k);
      } else if commands[n].Ours? {
        assert FirstAt(commands, IsOurs, n);
      }
    }
  }

  /** Selecting from a list with one more command appends its value when it
      is of the family. */
  lemma SelectedSnoc<C>(commands: seq<CommandEntry<C>>, c: CommandEntry<C>)
    ensures Selected(commands + [c]) == Selected(commands) + (if c.Ours? then [c.value] else [])
  {
    assert (commands + [c])[..|commands|] == commands;
  }

  /** Selection distributes over concatenation. */
  lemma {:induction false} SelectedAppend<C>(a: seq<CommandEntry<C>>, b: seq<CommandEntry<C>>)
    ensures Selected(a + b) == Selected(a) + Selected(b)
  {
    if |b| == 0 {
      assert a + b == a;
    } else {
      var n := |b| - 1;
      assert a + b == (a + b[..n]) + [b[n]];
      assert b == b[..n] + [b[n]];
      SelectedAppend(a, b[..n]);
      SelectedSnoc(a + b[..n], b[n]);
      SelectedSnoc(b[..n], b[n]);
    }
  }

  /** Commands of other families contribute nothing to the selection. */
  lemma {:induction false} SelectedOfForeign<C>(commands: seq<CommandEntry<C>>)
    requires forall k | 0 <= k < |commands| :: commands[k].Foreign?
    ensures Selected(commands) == []
  {
    if |commands| > 0 {
      SelectedOfForeign(commands[..|commands| - 1]);
    }
  }
}
