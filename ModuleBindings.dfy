/** The global bindings of a Julia module and the lookups and updates the
    module wrapper offers over them. The engine's table lookup is a map from
    symbol name to the bound value; each value carries the kind of its type
    (a module, a function, anything else) and its type's name. */
module ModuleBindings {
  import opened Common

  /** The kind of a bound value's type, as the wrapper tests it. */
  datatype Kind = ModuleKind | FunctionKind | OtherKind

  /** A Julia value as the binding table sees it. */
  datatype Value = Value(addr: nat, kind: Kind, typeName: string)

  /** A module: its name and its table of global bindings. */
  datatype ModuleData = ModuleData(name: string, bindings: map<string, Value>)

  /** `global_ref`: the bound value, or `GlobalNotFound` naming the symbol
      and the module when the name is unbound. */
  function GlobalRef(m: ModuleData, sym: string): (r: JlrsResult<Value>)
    ensures r.Ok? <==> sym in m.bindings
    ensures r.Ok? ==> r.value == m.bindings[sym]
    ensures r.Err? ==> r.error == GlobalNotFound(sym, m.name)
  {
    if sym in m.bindings then Ok(m.bindings[sym]) else Err(GlobalNotFound(sym, m.name))
  }

  /** `submodule_ref`: succeeds exactly when the name is bound to a module;
      an unbound name and a bound non-module both give `NotAModule`. */
  function SubmoduleRef(m: ModuleData, sym: string): (r: JlrsResult<Value>)
    ensures r.Ok? <==> sym in m.bindings && m.bindings[sym].kind == ModuleKind
    ensures r.Ok? ==> r.value == m.bindings[sym]
    ensures r.Err? ==> r.error == NotAModule(sym)
  {
    if sym in m.bindings && m.bindings[sym].kind == ModuleKind then Ok(m.bindings[sym])
    else Err(NotAModule(sym))
  }

  /** `function_ref`: the lookup error of `global_ref` is passed on; a bound
      value that is not a function gives `NotAFunction` with its type name. */
  function FunctionRef(m: ModuleData, sym: string): (r: JlrsResult<Value>)
    ensures r.Ok? <==> sym in m.bindings && m.bindings[sym].kind == FunctionKind
    ensures r.Ok? ==> r.value == m.bindings[sym]
    ensures sym !in m.bindings ==> r == GlobalRef(m, sym)
    ensures sym in m.bindings && m.bindings[sym].kind != FunctionKind ==>
      r.Err? && r.error == NotAFunction(sym, m.bindings[sym].typeName)
  {
    match GlobalRef(m, sym)
    case Err(e) => Err(e)
    case Ok(v) => if v.kind == FunctionKind then Ok(v) else Err(NotAFunction(sym, v.typeName))
  }

  /** `leaked_global`: like `global_ref`, but an unbound name is reported as
      `FunctionNotFound`. */
  function LeakedGlobal(m: ModuleData, sym: string): (r: JlrsResult<Value>)
    ensures r.Ok? <==> sym in m.bindings
    ensures r.Ok? ==> r.value == m.bindings[sym]
    ensures r.Err? ==> r.error == FunctionNotFound(sym)
  {
    if sym in m.bindings then Ok(m.bindings[sym]) else Err(FunctionNotFound(sym))
  }

  /** `leaked_function`: delegates to `leaked_global`, so it applies no
      function test: any bound value is returned. */
  function LeakedFunction(m: ModuleData, sym: string): (r: JlrsResult<Value>)
    ensures r.Ok? <==> sym in m.bindings
    ensures r.Ok? ==> r.value == m.bindings[sym]
    ensures r.Err? ==> r.error == FunctionNotFound(sym)
  {
    LeakedGlobal(m, sym)
  }

  /** The table after `set_global`: the name is bound to the value, replacing
      any earlier binding. */
  function Bind(m: ModuleData, sym: string, v: Value): (m': ModuleData)
    ensures m'.name == m.name && sym in m'.bindings && m'.bindings[sym] == v
    ensures forall s :: s != sym ==> (s in m'.bindings <==> s in m.bindings)
    ensures forall s :: s != sym && s in m.bindings ==> m'.bindings[s] == m.bindings[s]
  {
    m.(bindings := m.bindings[sym := v])
  }

  /** `set_const` on the table: refused with `ConstAlreadyExists` when
      `global_ref` finds the name, otherwise the name is bound. */
  function SetConstOn(m: ModuleData, sym: string, v: Value): (p: (ModuleData, JlrsResult<Value>))
    ensures sym in m.bindings ==> p.0 == m && p.1 == Err(ConstAlreadyExists(sym))
    ensures sym !in m.bindings ==> p.0 == Bind(m, sym, v) && p.1 == Ok(v)
  {
    if GlobalRef(m, sym).Ok? then (m, Err(ConstAlreadyExists(sym))) else (Bind(m, sym, v), Ok(v))
  }

  /** A lookup of a name that was just bound yields the new value, and every
      lookup of another name is what it was. */
  lemma LookupAfterBind(m: ModuleData, sym: string, v: Value, other: string)
    ensures GlobalRef(Bind(m, sym, v), sym) == Ok(v)
    ensures other != sym ==> GlobalRef(Bind(m, sym, v), other) == GlobalRef(m, other)
    ensures other != sym ==> SubmoduleRef(Bind(m, sym, v), other) == SubmoduleRef(m, other)
    ensures other != sym ==> FunctionRef(Bind(m, sym, v), other) == FunctionRef(m, other)
  {
  }

  /** Binding twice to the same name keeps only the second value, and
      rebinding a name to the value it has changes nothing. */
  lemma BindOverwrites(m: ModuleData, sym: string, v: Value, w: Value)
    ensures Bind(Bind(m, sym, v), sym, w) == Bind(m, sym, w)
    ensures sym in m.bindings && m.bindings[sym] == v ==> Bind(m, sym, v) == m
  {
    assert Bind(Bind(m, sym, v), sym, w).bindings == Bind(m, sym, w).bindings;
    if sym in m.bindings && m.bindings[sym] == v {
      assert Bind(m, sym, v).bindings == m.bindings;
    }
  }

  /** A constant is set at most once: after a successful `set_const`, a
      second one on the same name fails and the first value stays bound. */
  lemma SetConstOnce(m: ModuleData, sym: string, v: Value, w: Value)
    requires SetConstOn(m, sym, v).1.Ok?
    ensures var m1 := SetConstOn(m, sym, v).0;
      SetConstOn(m1, sym, w) == (m1, Err(ConstAlreadyExists(sym)))
      && GlobalRef(SetConstOn(m1, sym, w).0, sym) == Ok(v)
  {
  }

  /** The submodule and function lookups are refinements of `global_ref`,
      no name is both a module and a function, and `leaked_global` finds
      exactly what `global_ref` finds. */
  lemma LookupsAgree(m: ModuleData, sym: string)
    ensures SubmoduleRef(m, sym).Ok? ==> GlobalRef(m, sym) == SubmoduleRef(m, sym)
    ensures FunctionRef(m, sym).Ok? ==> GlobalRef(m, sym) == FunctionRef(m, sym)
    ensures !(SubmoduleRef(m, sym).Ok? && FunctionRef(m, sym).Ok?)
    ensures LeakedGlobal(m, sym).Ok? <==> GlobalRef(m, sym).Ok?
    ensures LeakedGlobal(m, sym).Ok? ==> LeakedGlobal(m, sym).value == GlobalRef(m, sym).value
  {
  }

  /** A GC frame: the values rooted in it, in the order they were pushed. */
  class Frame {
    var roots: seq<Value>

    constructor ()
      ensures roots == []
    {
      roots := [];
    }

    /** `push_root`. */
    method PushRoot(v: Value)
      modifies this
      ensures roots == old(roots) + [v]
    {
      roots := roots + [v];
    }
  }

  /** A module handle whose bindings the engine updates in place. */
  class JuliaModule {
    const name: string
    var bindings: map<string, Value>

    constructor (name: string, bindings: map<string, Value>)
      ensures this.name == name && this.bindings == bindings
    {
      this.name := name;
      this.bindings := bindings;
    }

    function Data(): ModuleData
      reads this
    {
      ModuleData(name, bindings)
    }

    /** `global`: `global_ref`, and on success the value is rooted in the frame. */
    method Global(frame: Frame, sym: string) returns (r: JlrsResult<Value>)
      modifies frame
      ensures r == GlobalRef(Data(), sym)
      ensures frame.roots == old(frame.roots) + (if r.Ok? then [r.value] else [])
    {
      if sym !in bindings {
        return Err(GlobalNotFound(sym, name));
      }
      frame.PushRoot(bindings[sym]);
      r := Ok(bindings[sym]);
    }

    /** `submodule`: `submodule_ref`, and on success the module is rooted. */
    method Submodule(frame: Frame, sym: string) returns (r: JlrsResult<Value>)
      modifies frame
      ensures r == SubmoduleRef(Data(), sym)
      ensures frame.roots == old(frame.roots) + (if r.Ok? then [r.value] else [])
    {
      if sym in bindings && bindings[sym].kind == ModuleKind {
        frame.PushRoot(bindings[sym]);
        r := Ok(bindings[sym]);
      } else {
        r := Err(NotAModule(sym));
      }
    }

    /** `function`: runs `global` first, so a bound value is rooted even
      when it then turns out not to be a function. */
    method Function(frame: Frame, sym: string) returns (r: JlrsResult<Value>)
      modifies frame
      ensures r == FunctionRef(Data(), sym)
      ensures frame.roots == old(frame.roots) + (if sym in bindings then [bindings[sym]] else [])
    {
      var g := Global(frame, sym);
      if g.Err? {
        return Err(g.error);
      }
      var v := g.value;
      if v.kind != FunctionKind {
        return Err(NotAFunction(sym, v.typeName));
      }
      r := Ok(v);
    }

    /** `set_global`: binds the name, overwriting any earlier binding, and
      returns the value. */
    method SetGlobal(sym: string, v: Value) returns (r: Value)
      modifies this
      ensures Data() == Bind(old(Data()), sym, v) && r == v
    {
      bindings := bindings[sym := v];
      r := v;
    }

    /** `set_const`: refused when the name is bound, with nothing changed;
      otherwise binds it and returns the value. */
    method SetConst(sym: string, v: Value) returns (r: JlrsResult<Value>)
      modifies this
      ensures (Data(), r) == SetConstOn(old(Data()), sym, v)
      ensures old(sym in bindings) ==> r == Err(ConstAlreadyExists(sym)) && bindings == old(bindings)
      ensures old(sym !in bindings) ==> r == Ok(v) && bindings == old(bindings)[sym := v]
    {
      var probe := GlobalRef(Data(), sym);
      if probe.Ok? {
        return Err(ConstAlreadyExists(sym));
      }
      bindings := bindings[sym := v];
      r := Ok(v);
    }
  }
}
