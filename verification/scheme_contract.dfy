/** The minimal deposit contract of the deposit-scheme module: it looks for
    exactly one `Create` command and checks only the number of inputs and
    outputs; the checks on the output's parties, signers and value are
    disabled in the original and have no counterpart here. */
module SchemeDepositContract {
  import opened Deposits
  import opened Ledger

  datatype SchemeCommand =
    | Create(propertyId: string)
    | CoSign(propertyId: string)
    | Fund(propertyId: string)
    | Deduct(propertyId: string)
    | Refund(propertyId: string)

  datatype Rule = NoInputsConsumed | OneOutputCreated

  type SchemeTransaction = Transaction<SchemeCommand>

  predicate IsCreate(c: CommandEntry<SchemeCommand>)
  {
    c.Ours? && c.value.Create?
  }

  /** The number of `Create` commands: one for each position holding one.
      Commands of other kinds, of this family or another, are not counted. */
  function CreateCount(commands: seq<CommandEntry<SchemeCommand>>): (n: nat)
    ensures n == |Positions(commands, IsCreate)|
    ensures n <= |commands|
    ensures n == 0 <==> forall k | 0 <= k < |commands| :: !IsCreate(commands[k])
  {
    if |commands| == 0 then 0
    else
      var last := |commands| - 1;
      PositionsSnoc(commands, IsCreate);
      var n := CreateCount(commands[..last]) + (if IsCreate(commands[last]) then 1 else 0);
      assert n == 0 <==> forall k | 0 <= k < |commands| :: !IsCreate(commands[k]) by {
        assert forall k | 0 <= k < last :: commands[..last][k] == commands[k];
      }
      n
  }

  /** Some position holds a `Create` command and no other position does. */
  predicate SingleCreate(commands: seq<CommandEntry<SchemeCommand>>)
  {
    exists k | 0 <= k < |commands| ::
      IsCreate(commands[k]) && forall j | 0 <= j < |commands| && IsCreate(commands[j]) :: j == k
  }

  /** A count of one is exactly a single position holding a `Create`. */
  lemma CountOneIffSingleCreate(commands: seq<CommandEntry<SchemeCommand>>)
    ensures CreateCount(commands) == 1 <==> SingleCreate(commands)
  {
    var positions := Positions(commands, IsCreate);
    if |positions| == 1 {
      var k :| k in positions;
      assert |positions - {k}| == 0;
      forall j | 0 <= j < |commands| && IsCreate(commands[j])
        ensures j == k
      {
        assert j in positions;
      }
    }
    if SingleCreate(commands) {
      var k :| 0 <= k < |commands| && IsCreate(commands[k])
        && forall j | 0 <= j < |commands| && IsCreate(commands[j]) :: j == k;
      assert positions == {k};
    }
  }

  /** The minimal contract: exactly one `Create` command, no inputs and one
      output; a failed command count reports how many `Create` commands there
      were. */
  function Verify(tx: SchemeTransaction): (v: Verdict<Rule>)
    ensures v.Accepted? <==> SingleCreate(tx.commands) && |tx.inputs| == 0 && |tx.outputs| == 1
    ensures !SingleCreate(tx.commands) ==> v == Rejected(CommandCount(|Positions(tx.commands, IsCreate)|))
    ensures (forall k | 0 <= k < |tx.commands| :: !IsCreate(tx.commands[k])) ==> v == Rejected(CommandCount(0))
  {
    var creates := CreateCount(tx.commands);
    CountOneIffSingleCreate(tx.commands);
    if creates != 1 then Rejected(CommandCount(creates))
    else if |tx.inputs| != 0 then Rejected(Requirement(NoInputsConsumed))
    else if |tx.outputs| != 1 then Rejected(Requirement(OneOutputCreated))
    else Accepted
  }

  /** Any single output is accepted under a lone `Create` command: its
      contents are never inspected, whatever its parties or amounts. */
  lemma AnySingleOutputAccepted(output: LedgerState, propertyId: string, signers: seq<PublicKey>)
    ensures Verify(Transaction([], [output], [Ours(Create(propertyId), signers)])).Accepted?
  {
    var commands := [Ours(Create(propertyId), signers)];
    assert commands[1..] == [];
    assert CreateCount(commands) == 1;
  }

  /** A transaction whose only command is not `Create` is rejected. */
  lemma OnlyOtherCommandRejected(tx: SchemeTransaction, command: SchemeCommand, signers: seq<PublicKey>)
    requires tx.commands == [Ours(command, signers)]
    requires !command.Create?
    ensures Verify(tx) == Rejected(CommandCount(0))
  {
  }

  /** Two `Create` commands anywhere in the list are rejected for the
      command count, whatever else the transaction holds. */
  lemma TwoCreatesRejected(tx: SchemeTransaction, i: nat, j: nat)
    requires i < j < |tx.commands|
    requires IsCreate(tx.commands[i]) && IsCreate(tx.commands[j])
    ensures Verify(tx).Rejected? && Verify(tx).violation.CommandCount?
    ensures Verify(tx).violation.found >= 2
  {
    assert i in Positions(tx.commands, IsCreate);
  }

  /** Consuming any input is rejected. */
  lemma InputConsumedRejected(tx: SchemeTransaction)
    requires |tx.inputs| > 0
    ensures Verify(tx).Rejected?
  {
  }

  /** Commands beside the one `Create` are ignored: a `Fund` command or a
      command of another contract alongside it changes nothing. */
  lemma OtherCommandsIgnored(tx: SchemeTransaction, extra: CommandEntry<SchemeCommand>)
    requires !IsCreate(extra)
    ensures Verify(tx.(commands := tx.commands + [extra])) == Verify(tx)
  {
    assert (tx.commands + [extra])[..|tx.commands|] == tx.commands;
  }
}
