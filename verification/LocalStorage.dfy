/**
 Contexts and Local storage as the mutable objects they are: a context is an object whose variables
 are set in place, and a Local's storage is a dictionary object that contexts share.
 Setting and deleting copy the dictionary first; copying a context and re-homing share it.
 */
module LocalStorage {
  import opened Contexts
  import opened Programs

  /** A Python dictionary. content is what it holds once it is published. */
  class Dict {
    var attrs: map<Key, Val>
    ghost const content: map<Key, Val>

    constructor (attrs: map<Key, Val>, ghost content: map<Key, Val>)
      ensures this.attrs == attrs && this.content == content
    {
      this.attrs := attrs;
      this.content := content;
    }
  }

  /** What a context variable holds: a Local's tagged pair, a thread-critical Local's dictionary, or a value. */
  datatype Cell = Pair(tag: Tid, dict: Dict) | Bag(dict: Dict) | Atom(v: Val)

  ghost function CellValue(c: Cell): CVal {
    match c
    case Pair(t, d) => Stored(t, d.content)
    case Bag(d) => Plain(Namespace(d.content))
    case Atom(v) => Plain(v)
  }

  predicate CellKind(v: CVar, c: Cell) {
    match v
    case LocalVar(_) => c.Pair?
    case CritVar(_, _) => c.Bag?
    case PlainVar(_) => c.Atom?
  }

  /** The equality test of _restore_context: tags and dictionary contents. */
  predicate SameCell(c: Cell, d: Cell)
    reads (if c.Atom? then {} else {c.dict}), (if d.Atom? then {} else {d.dict})
  {
    match (c, d)
    case (Pair(t, m), Pair(u, n)) => t == u && m.attrs == n.attrs
    case (Bag(m), Bag(n)) => m.attrs == n.attrs
    case (Atom(v), Atom(w)) => v == w
    case _ => false
  }

  /** A restore of src over dst that has yet to do the variables in todo. */
  ghost function Half(src: Context, dst: Context, todo: set<CVar>, t: Tid): Context {
    dst + map v | v in src && v !in todo :: Rehomed(v, src[v], t)
  }

  lemma HalfStep(src: Context, dst: Context, todo: set<CVar>, v: CVar, t: Tid)
    requires v in todo && v in src
    ensures Half(src, dst, todo - {v}, t) == Half(src, dst, todo, t)[v := Rehomed(v, src[v], t)]
    ensures v in dst ==> Half(src, dst, todo, t)[v] == dst[v]
  {
  }

  lemma HalfIsWhole(src: Context, dst: Context, todo: set<CVar>, t: Tid)
    ensures todo == {} ==> Half(src, dst, todo, t) == Restored(src, dst, t)
    ensures todo == src.Keys ==> Half(src, dst, todo, t) == dst
  {
  }

  /** A contextvars.Context. */
  class ContextObject {
    var vars: map<CVar, Cell>

    constructor ()
      ensures Valid() && Snapshot() == map[]
    {
      vars := map[];
    }

    /** contextvars.copy_context: a new context holding the same objects. */
    constructor Copy(other: ContextObject)
      requires other.Valid()
      ensures Valid() && Snapshot() == other.Snapshot() && vars == other.vars
    {
      vars := other.vars;
    }

    ghost function Dicts(): set<Dict>
      reads this
    {
      set v | v in vars && !vars[v].Atom? :: vars[v].dict
    }

    /** Every dictionary the context holds is published, and of the kind its variable is for. */
    ghost predicate Valid()
      reads this, Dicts()
      ensures Valid() ==> WellFormed(Snapshot())
    {
      forall v :: v in vars ==>
                    CellKind(v, vars[v]) && (!vars[v].Atom? ==> vars[v].dict.attrs == vars[v].dict.content)
    }

    /** The context as a value, dictionaries included. */
    ghost function Snapshot(): (ctx: Context)
      reads this
      ensures ctx.Keys == vars.Keys
    {
      map v | v in vars :: CellValue(vars[v])
    }

    /** Local.__getattr__ and the read of a context variable, on thread ident. */
    method Get(ident: Tid, loc: Loc) returns (r: Option<Val>)
      requires Valid()
      ensures r == Read(Snapshot(), ident, loc)
    {
      if VarOf(loc) !in vars {
        return None;
      }
      var cell := vars[VarOf(loc)];
      assert Snapshot()[VarOf(loc)] == CellValue(cell);
      match loc {
        case Attr(_, key) =>
          if cell.tag == ident && key in cell.dict.attrs {
            return Some(cell.dict.attrs[key]);
          }
        case CritAttr(_, _, key) =>
          if key in cell.dict.attrs {
            return Some(cell.dict.attrs[key]);
          }
        case Whole(_) =>
          return Some(cell.v);
      }
      return None;
    }

    /** A copy of the dictionary this thread owns behind v, or a new one. */
    method CopyOwned(ident: Tid, v: CVar, ghost content: map<Key, Val>) returns (data: Dict)
      requires Valid() && !v.PlainVar?
      ensures fresh(data) && data.attrs == OwnData(Snapshot(), ident, v) && data.content == content
    {
      var attrs: map<Key, Val> := map[];
      if v in vars {
        assert Snapshot()[v] == CellValue(vars[v]);
        match vars[v] {
          case Pair(tag, d) => attrs := if tag == ident then d.attrs else attrs;
          case Bag(d) => attrs := d.attrs;
        }
      }
      data := new Dict(attrs, content);
    }

    /** Local.__setattr__ and ContextVar.set, on thread ident. */
    method Set(ident: Tid, loc: Loc, val: Val)
      requires Valid()
      modifies this
      ensures Valid() && Snapshot() == Write(old(Snapshot()), ident, loc, val)
    {
      match loc
      case Whole(name) =>
        vars := vars[PlainVar(name) := Atom(val)];
      case _ =>
        var data := CopyOwned(ident, VarOf(loc), OwnData(Snapshot(), ident, VarOf(loc))[loc.key := val]);
        data.attrs := data.attrs[loc.key := val];
        vars := vars[VarOf(loc) := if loc.Attr? then Pair(ident, data) else Bag(data)];
    }

    /** Local.__delattr__ of an attribute that is there, on thread ident. */
    method Delete(ident: Tid, loc: Loc)
      requires Valid() && !loc.Whole? && Read(Snapshot(), ident, loc).Some?
      modifies this
      ensures Valid() && Snapshot() == Erase(old(Snapshot()), ident, loc)
    {
      var data := CopyOwned(ident, VarOf(loc), OwnData(Snapshot(), ident, VarOf(loc)) - {loc.key});
      data.attrs := data.attrs - {loc.key};
      vars := vars[VarOf(loc) := if loc.Attr? then Pair(ident, data) else Bag(data)];
    }

    /** One round of _restore_context: set v to the re-homed cell unless an equal value is there. */
    method RestoreOne(v: CVar, cell: Cell, ident: Tid)
      requires Valid() && CellKind(v, cell)
      requires !cell.Atom? ==> cell.dict.attrs == cell.dict.content
      modifies this
      ensures Valid() && Snapshot() == old(Snapshot())[v := Rehomed(v, CellValue(cell), ident)]
    {
      var cvalue := if v.LocalVar? && cell.Pair? then Pair(ident, cell.dict) else cell;
      if v in vars {
        assert Snapshot()[v] == CellValue(vars[v]);
        if !SameCell(vars[v], cvalue) {
          vars := vars[v := cvalue];
        }
      } else {
        vars := vars[v := cvalue];
      }
    }

    /** _restore_context(source), run on thread ident with this context current. The source may be this context. */
    method Restore(source: ContextObject, ident: Tid)
      requires Valid() && source.Valid()
      modifies this
      ensures Valid() && Snapshot() == Restored(old(source.Snapshot()), old(Snapshot()), ident)
    {
      ghost var src, dst := source.Snapshot(), Snapshot();
      var todo := source.vars.Keys;
      HalfIsWhole(src, dst, todo, ident);
      while todo != {}
        invariant Valid() && source.Valid() && todo <= src.Keys
        invariant Snapshot() == Half(src, dst, todo, ident)
        invariant source.Snapshot() == if source == this then Half(src, dst, todo, ident) else src
      {
        var v :| v in todo;
        assert source.Snapshot()[v] == CellValue(source.vars[v]);
        HalfStep(src, dst, todo, v, ident);
        RestoreOne(v, source.vars[v], ident);
        todo := todo - {v};
      }
      HalfIsWhole(src, dst, todo, ident);
    }

    /** Set v to a value held in objects of its own. */
    method PutNew(v: CVar, val: CVal)
      requires Valid() && KindOf(v, val)
      modifies this
      ensures Valid() && Snapshot() == old(Snapshot())[v := val]
    {
      match v
      case LocalVar(_) =>
        var d := new Dict(val.data, val.data);
        vars := vars[v := Pair(val.tag, d)];
      case CritVar(_, _) =>
        var d := new Dict(val.v.attrs, val.v.attrs);
        vars := vars[v := Bag(d)];
      case PlainVar(_) =>
        vars := vars[v := Atom(val.v)];
    }
  }

  /** The context a reused worker thread has of its own. */
  method Existing(base: Context) returns (c: ContextObject)
    requires WellFormed(base)
    ensures fresh(c) && c.Valid() && c.Snapshot() == base
  {
    c := new ContextObject();
    var todo := base.Keys;
    while todo != {}
      invariant todo <= base.Keys && fresh(c) && c.Valid() && c.Snapshot().Keys == base.Keys - todo
      invariant forall v :: v in c.Snapshot() ==> c.Snapshot()[v] == base[v]
    {
      var v :| v in todo;
      c.PutNew(v, base[v]);
      todo := todo - {v};
    }
  }
}
