/** The scope chain of object/env.go as a frame store: every `*Env` is a frame id, a frame
    holds its bindings and the id of its parent. Go's `nil` parent is `None`. */
module Env {
  import opened Wrappers
  import opened Object

  datatype Frame = Frame(vars: map<string, Obj>, parent: Option<FrameId>)

  /** All frames made so far; `next` is the id the next frame gets. */
  datatype Store = Store(frames: map<FrameId, Frame>, next: FrameId) {
    /** Every frame id was handed out, and every parent is an older frame of the store. */
    ghost predicate Valid() {
      && (forall id | id in frames :: id < next)
      && (forall id | id in frames && frames[id].parent.Some? ::
            frames[id].parent.value in frames && frames[id].parent.value < id)
    }
  }

  /** A store with a new frame in it. */
  datatype Alloc = Alloc(store: Store, id: FrameId)

  /** What `Set` leaves behind, and the value it returns. */
  datatype Assigned = Assigned(store: Store, value: Obj)

  const EmptyStore: Store := Store(map[], 0)

  /** `NewEnv`: an empty frame with no parent. */
  function NewEnv(st: Store): (r: Alloc)
    ensures st.Valid() ==> r.store.Valid() && r.id !in st.frames
    ensures r.store.frames == st.frames[r.id := Frame(map[], None)] && r.store.next > r.id
  {
    Alloc(Store(st.frames[st.next := Frame(map[], None)], st.next + 1), st.next)
  }

  /** `NewNestedEnv`: an empty frame whose parent is `parent`. */
  function NewNestedEnv(st: Store, parent: FrameId): (r: Alloc)
    ensures st.Valid() ==> r.id !in st.frames
    ensures st.Valid() && parent in st.frames ==> r.store.Valid()
    ensures r.store.frames == st.frames[r.id := Frame(map[], Some(parent))] && r.store.next > r.id
  {
    Alloc(Store(st.frames[st.next := Frame(map[], Some(parent))], st.next + 1), st.next)
  }

  /** The parent link followed by `Get` and `Set`. It is every parent of a valid store;
      otherwise a link to a missing or newer frame is treated as nil. */
  function Up(st: Store, id: FrameId): (r: Option<FrameId>)
    requires id in st.frames
    ensures r.Some? ==> r.value in st.frames && r.value < id
    ensures st.Valid() ==> r == st.frames[id].parent
  {
    var p := st.frames[id].parent;
    if p.Some? && p.value in st.frames && p.value < id then p else None
  }

  /** The frames a lookup from `id` visits, innermost first. */
  function Chain(st: Store, id: FrameId): (c: seq<FrameId>)
    requires id in st.frames
    ensures |c| >= 1 && c[0] == id
    ensures forall k :: 0 <= k < |c| ==> c[k] in st.frames
    ensures Up(st, c[|c| - 1]).None?
    ensures forall k :: 0 <= k < |c| - 1 ==> Up(st, c[k]) == Some(c[k + 1])
    decreases id
  {
    match Up(st, id)
    case None => [id]
    case Some(p) => [id] + Chain(st, p)
  }

  /** `Get`: the binding in the innermost frame of the chain that has the name, and `None`
      (Go's `ok == false`) when no frame has it. */
  function Get(st: Store, id: FrameId, name: string): (r: Option<Obj>)
    ensures id !in st.frames ==> r.None?
    ensures id in st.frames && name in st.frames[id].vars ==> r == Some(st.frames[id].vars[name])
    ensures r.Some? ==> exists f :: f in st.frames && name in st.frames[f].vars && r.value == st.frames[f].vars[name]
    decreases id
  {
    if id !in st.frames then None
    else if name in st.frames[id].vars then Some(st.frames[id].vars[name])
    else match Up(st, id)
      case None => None
      case Some(p) => Get(st, p, name)
  }

  /** The frame `Set` writes into: the first frame of the chain that binds the name, or the
      chain's root when none does. */
  function Target(st: Store, id: FrameId, name: string): (t: FrameId)
    requires id in st.frames
    ensures t in st.frames
    ensures name in st.frames[t].vars || Up(st, t).None?
    ensures name in st.frames[id].vars ==> t == id
    decreases id
  {
    if name !in st.frames[id].vars && Up(st, id).Some? then Target(st, Up(st, id).value, name)
    else id
  }

  /** `Set`: overwrite the binding of the frame that has the name, else hand the write to the
      parent; a frame with no parent takes the write itself. It returns the value given. */
  function Set(st: Store, id: FrameId, name: string, value: Obj): (r: Assigned)
    ensures r.value == value
    ensures r.store.next == st.next && r.store.frames.Keys == st.frames.Keys
    ensures id in st.frames ==> r.store.frames == st.frames[Target(st, id, name) :=
              Frame(st.frames[Target(st, id, name)].vars[name := value], st.frames[Target(st, id, name)].parent)]
    decreases id
  {
    if id !in st.frames then Assigned(st, value)
    else if name !in st.frames[id].vars && Up(st, id).Some? then Set(st, Up(st, id).value, name, value)
    else
      var f := st.frames[id];
      Assigned(Store(st.frames[id := Frame(f.vars[name := value], f.parent)], st.next), value)
  }

  /** The first position of the chain whose frame binds the name. */
  ghost predicate FirstBinder(st: Store, c: seq<FrameId>, k: nat, name: string)
    requires forall j :: 0 <= j < |c| ==> c[j] in st.frames
  {
    && k < |c| && name in st.frames[c[k]].vars
    && forall j :: 0 <= j < k ==> name !in st.frames[c[j]].vars
  }

  /** `Get` returns the binding of the first frame of the chain that has the name, and
      nothing exactly when no frame of the chain has it. */
  lemma GetFindsFirstBinding(st: Store, id: FrameId, name: string)
    requires id in st.frames
    ensures var c := Chain(st, id);
            && (Get(st, id, name).None? <==> forall k :: 0 <= k < |c| ==> name !in st.frames[c[k]].vars)
            && (forall k: nat :: FirstBinder(st, c, k, name) ==> Get(st, id, name) == Some(st.frames[c[k]].vars[name]))
  {
    GetNoneIffUnbound(st, id, name);
    forall k: nat | FirstBinder(st, Chain(st, id), k, name)
      ensures Get(st, id, name) == Some(st.frames[Chain(st, id)[k]].vars[name])
    {
      GetReturnsFirstBinder(st, id, name, k);
    }
  }

  /** `Get` finds nothing exactly when no frame of the chain binds the name. */
  lemma {:induction false} GetNoneIffUnbound(st: Store, id: FrameId, name: string)
    requires id in st.frames
    ensures var c := Chain(st, id);
            Get(st, id, name).None? <==> forall k :: 0 <= k < |c| ==> name !in st.frames[c[k]].vars
    decreases id
  {
    if name !in st.frames[id].vars && Up(st, id).Some? {
      var p := Up(st, id).value;
      GetNoneIffUnbound(st, p, name);
      assert Chain(st, id)[1..] == Chain(st, p);
    }
  }

  /** `Get` returns the binding of the frame at the chain's first binding position. */
  lemma {:induction false} GetReturnsFirstBinder(st: Store, id: FrameId, name: string, k: nat)
    requires id in st.frames
    requires FirstBinder(st, Chain(st, id), k, name)
    ensures Get(st, id, name) == Some(st.frames[Chain(st, id)[k]].vars[name])
    decreases id
  {
    var c := Chain(st, id);
    if k > 0 {
      assert name !in st.frames[c[0]].vars;
      var p := Up(st, id).value;
      assert c[1..] == Chain(st, p);
      assert FirstBinder(st, Chain(st, p), k - 1, name);
      GetReturnsFirstBinder(st, p, name, k - 1);
    }
  }

  /** `Set` writes into the first frame of the chain that binds the name, or into the root
      of the chain when no frame binds it. */
  lemma TargetIsFirstBinderOrRoot(st: Store, id: FrameId, name: string)
    requires id in st.frames
    ensures var c := Chain(st, id); var t := Target(st, id, name);
            && (forall k: nat :: FirstBinder(st, c, k, name) ==> t == c[k])
            && ((forall k :: 0 <= k < |c| ==> name !in st.frames[c[k]].vars) ==> t == c[|c| - 1])
  {
    TargetIsRootWhenUnbound(st, id, name);
    forall k: nat | FirstBinder(st, Chain(st, id), k, name) ensures Target(st, id, name) == Chain(st, id)[k] {
      TargetIsFirstBinder(st, id, name, k);
    }
  }

  /** With no binder on the chain, `Set` writes into the chain's root. */
  lemma {:induction false} TargetIsRootWhenUnbound(st: Store, id: FrameId, name: string)
    requires id in st.frames
    ensures var c := Chain(st, id);
            (forall k :: 0 <= k < |c| ==> name !in st.frames[c[k]].vars) ==> Target(st, id, name) == c[|c| - 1]
    decreases id
  {
    if name !in st.frames[id].vars && Up(st, id).Some? {
      var p := Up(st, id).value;
      TargetIsRootWhenUnbound(st, p, name);
      assert Chain(st, id)[1..] == Chain(st, p);
    }
  }

  /** `Set` writes into the frame at the chain's first binding position. */
  lemma {:induction false} TargetIsFirstBinder(st: Store, id: FrameId, name: string, k: nat)
    requires id in st.frames
    requires FirstBinder(st, Chain(st, id), k, name)
    ensures Target(st, id, name) == Chain(st, id)[k]
    decreases id
  {
    var c := Chain(st, id);
    if k > 0 {
      assert name !in st.frames[c[0]].vars;
      var p := Up(st, id).value;
      assert c[1..] == Chain(st, p);
      assert FirstBinder(st, Chain(st, p), k - 1, name);
      TargetIsFirstBinder(st, p, name, k - 1);
    }
  }

  /** After `Set(name, v)` on a frame, `Get(name)` on the same frame returns `v`. */
  lemma {:induction false} GetAfterSet(st: Store, id: FrameId, name: string, value: Obj)
    requires id in st.frames
    ensures Get(Set(st, id, name, value).store, id, name) == Some(value)
    decreases id
  {
    var st2 := Set(st, id, name, value).store;
    var t := Target(st, id, name);
    assert st2.frames[t].vars[name] == value;
    if t != id {
      var p := Up(st, id).value;
      assert Target(st, p, name) == t;
      assert st2.frames[id] == st.frames[id];
      assert Up(st2, id) == Up(st, id);
      GetAfterSet(st, p, name, value);
      assert Set(st, id, name, value) == Set(st, p, name, value);
    }
  }

  /** `Set` changes one binding of one frame: every other frame and every other name of the
      target frame keep their bindings, and no parent link changes. */
  lemma SetChangesOneBinding(st: Store, id: FrameId, name: string, value: Obj)
    requires id in st.frames
    ensures var st2 := Set(st, id, name, value).store; var t := Target(st, id, name);
            && (forall f | f in st.frames && f != t :: st2.frames[f] == st.frames[f])
            && (forall f | f in st.frames :: st2.frames[f].parent == st.frames[f].parent)
            && (forall x | x != name :: (x in st2.frames[t].vars <==> x in st.frames[t].vars))
            && (forall x | x != name && x in st.frames[t].vars :: st2.frames[t].vars[x] == st.frames[t].vars[x])
            && st2.frames[t].vars[name] == value
  {
  }

  /** `Set` keeps the store valid. */
  lemma SetKeepsValid(st: Store, id: FrameId, name: string, value: Obj)
    requires st.Valid()
    ensures Set(st, id, name, value).store.Valid()
  {
  }

  /** A frame that has a parent and no binding never receives one from `Set`: in particular
      a frame made by `NewNestedEnv` stays empty. */
  lemma NestedFrameNeverGains(st: Store, id: FrameId, name: string, value: Obj, f: FrameId)
    requires st.Valid() && f in st.frames
    requires st.frames[f].parent.Some? && st.frames[f].vars == map[]
    ensures Set(st, id, name, value).store.frames[f] == st.frames[f]
  {
  }

  /** `Set` of one name leaves every lookup of another name as it was. */
  lemma GetAfterSetOther(st: Store, id: FrameId, name: string, value: Obj, from: FrameId, x: string)
    requires x != name
    ensures Get(Set(st, id, name, value).store, from, x) == Get(st, from, x)
  {
    if id in st.frames {
      SetChangesOneBinding(st, id, name, value);
      GetThroughOtherWrite(st, Set(st, id, name, value).store, Target(st, id, name), name, from, x);
    }
  }

  /** Lookups of `x` agree in two stores with the same frames and parent links whose only
      difference is the binding of another name in frame `t`. */
  lemma {:induction false} GetThroughOtherWrite(st: Store, st2: Store, t: FrameId, name: string, id: FrameId, x: string)
    requires x != name && t in st.frames
    requires st2.frames.Keys == st.frames.Keys
    requires forall f | f in st.frames && f != t :: st2.frames[f] == st.frames[f]
    requires st2.frames[t].parent == st.frames[t].parent
    requires x in st2.frames[t].vars <==> x in st.frames[t].vars
    requires x in st.frames[t].vars ==> st2.frames[t].vars[x] == st.frames[t].vars[x]
    ensures Get(st2, id, x) == Get(st, id, x)
    decreases id
  {
    if id in st.frames && x !in st.frames[id].vars {
      assert st2.frames[id].parent == st.frames[id].parent;
      assert Up(st2, id) == Up(st, id);
      if Up(st, id).Some? {
        GetThroughOtherWrite(st, st2, t, name, Up(st, id).value, x);
      }
    }
  }
}
