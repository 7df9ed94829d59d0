/** What VerifyScripts leaves behind. The script machine is not part of this model:
    executions take its result as a function of the state it starts from. */
module ContractVm {
  import opened ByteCodec
  import opened StateLimits

  datatype VmResult = VmFailed | VmDone(state: StateMap, gasUsed: nat)

  type Vm = StateMap -> VmResult

  /** Running f751 on the two-push unlocking script (src/script_interpreter.cpp,
      lines 1865-1900): OP_STORE writes the one key, within the limits, or fails. */
  ghost predicate IsOneStore(vm: Vm, key: Text, value: Bytes) {
    forall s: StateMap :: vm(s).VmDone? ==> vm(s).state == s[key := value] && WithinLimits(s[key := value])
  }
}
