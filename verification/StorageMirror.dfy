/**
 * The contract with its typed storage and the word store side by side: each
 * write of the one has its stores in the other, and the words go on
 * representing what the contract holds.
 */
module StorageMirror {
  import opened Ledger
  import opened ValidatorSets
  import opened ValidatorSetStorage
  import opened TwinLists
  import opened StakingContract
  import opened StorageLayout
  import opened WordStore

  class Mirror {
    const contract: StakingContract
    const store: WordStore

    /** The words represent what the contract holds. */
    ghost predicate InStep()
      reads contract, contract.sets, contract.lists, store
    {
      store.Valid() && store.typed == contract.Saved()
    }

    constructor ()
      ensures fresh(contract) && fresh(contract.sets) && fresh(contract.lists) && fresh(store)
      ensures contract.Valid() && InStep()
    {
      contract := new StakingContract();
      store := new WordStore();
    }

    method WriteDelegator(v: ValId, a: Address, d: Delegator)
      requires InStep() && U64(v) && Address20(a)
      modifies contract`pools, store
      ensures InStep() && contract.Saved() == WithDelegator(old(contract.Saved()), v, a, d)
    {
      contract.WriteDelegator(v, a, d);
      store.WriteDelegator(v, a, d);
    }

    /** Each number of the record is stored on its own, and the flags with the auth address. */
    method WriteValidator(v: ValId, val: Validator)
      requires InStep() && U64(v)
      modifies contract`pools, store
      ensures InStep() && contract.Saved() == WithValidator(old(contract.Saved()), v, val)
    {
      contract.WriteValidator(v, val);
      store.WriteValidatorRecord(v, val);
    }

    method WriteAccumulator(e: Epoch, v: ValId, snap: Snapshot)
      requires InStep() && U64(e) && U64(v)
      modifies contract`pools, store
      ensures InStep() && contract.Saved() == WithSnapshot(old(contract.Saved()), e, v, snap)
    {
      contract.WriteAccumulator(e, v, snap);
      store.WriteAccumulator(e, v, snap);
    }

    method ClearAccumulator(e: Epoch, v: ValId)
      requires InStep() && U64(e) && U64(v)
      modifies contract`pools, store
      ensures InStep() && contract.Saved() == WithoutSnapshot(old(contract.Saved()), e, v)
    {
      contract.ClearAccumulator(e, v);
      store.ClearAccumulator(e, v);
    }

    method WriteWithdrawal(v: ValId, a: Address, wid: Byte, r: Withdrawal)
      requires InStep() && U64(v) && Address20(a)
      modifies contract`pools, store
      ensures InStep() && contract.Saved() == WithRequest(old(contract.Saved()), v, (a, wid), r)
    {
      contract.WriteWithdrawal(v, (a, wid), r);
      store.WriteWithdrawalRequest(v, a, wid, r);
    }

    method ClearWithdrawal(v: ValId, a: Address, wid: Byte)
      requires InStep() && U64(v) && Address20(a)
      modifies contract`pools, store
      ensures InStep() && contract.Saved() == WithoutRequest(old(contract.Saved()), v, (a, wid))
    {
      contract.ClearWithdrawal(v, (a, wid));
      store.ClearWithdrawalRequest(v, a, wid);
    }

    method WriteNode(v: ValId, a: Address, n: ListNode)
      requires InStep() && U64(v) && Address20(a)
      modifies contract.lists, store
      ensures InStep() && contract.Saved() == WithNode(old(contract.Saved()), v, a, n)
    {
      contract.lists.WriteNode(v, a, n);
      store.WriteListNode(v, a, n);
    }

    method AddToValset(v: ValId) returns (inserted: bool)
      requires InStep() && contract.sets.Valid() && U64(v)
      requires U64(|contract.sets.execution|) && U64(|contract.sets.execution| + 1)
      modifies contract.sets, store
      ensures InStep() && contract.sets.Valid()
      ensures inserted <==> v !in old(contract.sets.execution)
      ensures contract.sets.Contents() == AddToExecution(old(contract.sets.Contents()), v)
    {
      inserted := contract.sets.AddToValset(v);
      var stored := store.AddToValset(v);
    }

    method RemoveFromValset(v: ValId)
      requires InStep() && U64(v)
      modifies contract.sets, store
      ensures InStep() && contract.sets.bits == WithoutBit(old(contract.sets.bits), v)
    {
      contract.sets.RemoveFromValset(v);
      store.RemoveFromValset(v);
    }
  }
}
