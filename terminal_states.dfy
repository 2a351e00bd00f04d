/** The two terminal states of the workflow builder, `Success` and `Fail`. Each keeps
    its name and params; its document is the base state's terminal serialisation,
    then `Type`, then the params spread over both. The base state class is not part
    of this model, so its serialisation is a parameter `base` taking the terminal flag. */
module TerminalStates {
  import opened Common
  import opened AslJson

  datatype Terminal =
    | Success(name: string, params: Obj := [])
    | Fail(name: string, params: Obj := [])

  /** The ASL state type written for each kind. */
  function TypeName(t: Terminal): string
  {
    if t.Success? then "Succeed" else "Fail"
  }

  /** `{...super.toJSON(true), Type, ...this.params}`. */
  function ToJson(t: Terminal, base: bool -> Obj): Obj
  {
    Spread(Put(base(true), "Type", JStr(TypeName(t))), t.params)
  }

  /** Every key of the params has the caller's value; otherwise `Type` is the state's
      type name, and every other key has its value in the terminal base serialisation. */
  lemma ToJsonGet(t: Terminal, base: bool -> Obj, k: string)
    requires WellFormed(t.params)
    ensures Get(ToJson(t, base), k) ==
      if k in Keys(t.params) then Get(t.params, k)
      else if k == "Type" then Some(JStr(TypeName(t)))
      else Get(base(true), k)
  {
    SpreadGet(Put(base(true), "Type", JStr(TypeName(t))), t.params, k);
    PutGet(base(true), "Type", JStr(TypeName(t)), k);
  }

  /** The document starts with the base keys in their order, then `Type` when the
      base has none, and otherwise holds only params keys; no key is duplicated. */
  lemma ToJsonKeys(t: Terminal, base: bool -> Obj)
    requires WellFormed(base(true))
    ensures var withType := if "Type" in Keys(base(true)) then Keys(base(true)) else Keys(base(true)) + ["Type"];
      |withType| <= |Keys(ToJson(t, base))| && Keys(ToJson(t, base))[..|withType|] == withType
    ensures forall k :: k in Keys(ToJson(t, base)) <==> k in Keys(base(true)) || k == "Type" || k in Keys(t.params)
    ensures WellFormed(ToJson(t, base))
  {
    var typed := Put(base(true), "Type", JStr(TypeName(t)));
    SpreadKeys(typed, t.params);
    PutWellFormed(base(true), "Type", JStr(TypeName(t)));
    SpreadWellFormed(typed, t.params);
  }

  /** With the default empty params, the document is the terminal base serialisation
      with `Type` set and nothing else changed. */
  lemma DefaultParams(name: string, base: bool -> Obj, k: string)
    ensures Get(ToJson(Success(name), base), k) == if k == "Type" then Some(JStr("Succeed")) else Get(base(true), k)
    ensures Get(ToJson(Fail(name), base), k) == if k == "Type" then Some(JStr("Fail")) else Get(base(true), k)
  {
    PutGet(base(true), "Type", JStr("Succeed"), k);
    PutGet(base(true), "Type", JStr("Fail"), k);
  }
}
