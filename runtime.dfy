/** The bookkeeping of the runtime: the garbage collector's object list and
    root set with its mark and sweep phases, and the VM's table of global
    words indexed by name-pool position. */
module RuntimeSpec {
  import opened Wrappers

  /** `a` is `b` with some elements left out, the rest in their order. */
  predicate SubsequenceOf<T(==)>(a: seq<T>, b: seq<T>)
    decreases |b|
  {
    a == [] || (b != [] && ((a[0] == b[0] && SubsequenceOf(a[1..], b[1..])) || SubsequenceOf(a, b[1..])))
  }

  /** `store_name`: when the index is past the table, the table is first
      resized to the name pool's length (zero-filled, or cut); a write that
      is still out of range is an index panic (None). */
  function StoreName(globals: seq<bv64>, poolLength: nat, index: nat, word: bv64): (r: Option<seq<bv64>>)
    ensures r.Some? <==> index < |globals| || index < poolLength
    ensures r.Some? ==> |r.value| == (if index < |globals| then |globals| else poolLength)
    ensures r.Some? ==> r.value[index] == word
    ensures r.Some? ==> forall i :: 0 <= i < |r.value| && i != index ==>
              r.value[i] == (if i < |globals| then globals[i] else 0)
  {
    var table := if |globals| <= index then Resize(globals, poolLength) else globals;
    if index < |table| then Some(table[index := word]) else None
  }

  /** `Vec::resize(n, 0)`. */
  function Resize(v: seq<bv64>, n: nat): (r: seq<bv64>)
    ensures |r| == n
    ensures forall i :: 0 <= i < n ==> r[i] == (if i < |v| then v[i] else 0)
  {
    if n <= |v| then v[..n] else v + seq(n - |v|, _ => 0)
  }

  /** `load_name`: the stored word, or a panic (None) past the table. */
  function LoadName(globals: seq<bv64>, index: nat): (r: Option<bv64>)
    ensures r.Some? <==> index < |globals|
  {
    if index < |globals| then Some(globals[index]) else None
  }

  /** A stored word is loaded back, and every other loaded word is the one
      stored before or zero. */
  lemma LoadAfterStore(globals: seq<bv64>, poolLength: nat, index: nat, word: bv64, other: nat)
    requires StoreName(globals, poolLength, index, word).Some?
    ensures LoadName(StoreName(globals, poolLength, index, word).value, index) == Some(word)
    ensures other != index && other < |globals| ==>
              LoadName(StoreName(globals, poolLength, index, word).value, other) == LoadName(globals, other)
  {
  }
}

/** The collector and the VM as objects whose fields change in place. */
module Runtime {
  import opened Wrappers
  import Bytekod
  import opened Objects
  import opened RuntimeSpec

  /** `VMValue`. */
  datatype VMValue = Null | String(s: string) | CodeValue(code: Bytekod.CodeValue)

  /** `VMObject`: a value and the collector's mark, shared by reference. */
  class VMObject {
    var value: VMValue
    var marked: bool

    constructor ()
      ensures value == Null && !marked
    {
      value := Null;
      marked := false;
    }
  }

  /** The sweep phase's result: the objects, in their order, whose mark is set. */
  function MarkedOnly(objs: seq<VMObject>): (r: seq<VMObject>)
    reads set o | o in objs
  {
    if objs == [] then []
    else if objs[0].marked then [objs[0]] + MarkedOnly(objs[1..])
    else MarkedOnly(objs[1..])
  }

  /** Sweeping keeps exactly the marked objects and adds nothing. */
  lemma {:induction false} MarkedOnlyExact(objs: seq<VMObject>)
    ensures forall o :: o in MarkedOnly(objs) <==> o in objs && o.marked
    ensures |MarkedOnly(objs)| <= |objs|
  {
    if objs != [] {
      MarkedOnlyExact(objs[1..]);
      assert objs == [objs[0]] + objs[1..];
    }
  }

  /** Sweeping keeps the order: the result is a subsequence of the list. */
  lemma {:induction false} MarkedOnlyInOrder(objs: seq<VMObject>)
    ensures SubsequenceOf(MarkedOnly(objs), objs)
  {
    if objs != [] {
      MarkedOnlyInOrder(objs[1..]);
      if objs[0].marked {
        assert MarkedOnly(objs)[1..] == MarkedOnly(objs[1..]);
      }
    }
  }

  /** Sweeping twice keeps what sweeping once kept. */
  lemma {:induction false} MarkedOnlyIdempotent(objs: seq<VMObject>)
    ensures MarkedOnly(MarkedOnly(objs)) == MarkedOnly(objs)
  {
    if objs != [] {
      MarkedOnlyIdempotent(objs[1..]);
      if objs[0].marked {
        var r := MarkedOnly(objs);
        assert r[0] == objs[0] && r[1..] == MarkedOnly(objs[1..]);
      }
    }
  }

  /** `GarbageCollector`: every allocated object, and the roots. A root is a
      weak reference, compared by identity. It still upgrades while some
      strong reference exists: the collector's own list holds one for every
      object in it, and references outside the collector may keep a swept
      object alive. The mark phase therefore takes the set of objects that
      are alive as a parameter, which contains every listed object. */
  class GarbageCollector {
    var objects: seq<VMObject>
    var roots: set<VMObject>

    /** `GarbageCollector::new`. */
    constructor ()
      ensures objects == [] && roots == {}
    {
      objects := [];
      roots := {};
    }

    /** `allocate`: one new unmarked `Null` object, appended and returned. */
    method Allocate() returns (o: VMObject)
      modifies this
      ensures fresh(o) && o.value == Null && !o.marked
      ensures objects == old(objects) + [o] && roots == old(roots)
    {
      o := new VMObject();
      objects := objects + [o];
    }

    /** `add_root`: set insertion keyed on identity. */
    method AddRoot(root: VMObject)
      modifies this
      ensures roots == old(roots) + {root} && objects == old(objects)
    {
      roots := roots + {root};
    }

    /** `mark_recursive`: sets the mark; the objects hold no references yet. */
    method MarkRecursive(o: VMObject)
      modifies o
      ensures o.marked && o.value == old(o.value)
    {
      if !o.marked {
        o.marked := true;
      }
    }

    /** `mark_phase`: every root that is alive gets marked; dead roots and
        every other object are left alone. The roots are visited in an
        unspecified order. */
    method MarkPhase(alive: set<VMObject>)
      requires forall o :: o in objects ==> o in alive
      modifies roots
      ensures forall o :: o in roots && o in alive ==> o.marked
      ensures forall o :: o in roots && o !in alive ==> o.marked == old(o.marked)
      ensures forall o :: o in roots ==> o.value == old(o.value) && (old(o.marked) ==> o.marked)
    {
      var pending := roots;
      while pending != {}
        invariant pending <= roots
        invariant forall o :: o in roots - pending && o in alive ==> o.marked
        invariant forall o :: o in roots && (o in pending || o !in alive) ==> o.marked == old(o.marked)
        invariant forall o :: o in roots ==> o.value == old(o.value) && (old(o.marked) ==> o.marked)
        decreases pending
      {
        var root :| root in pending;
        if root in alive {
          MarkRecursive(root);
        }
        pending := pending - {root};
      }
    }

    /** `sweep_phase`: the list becomes the marked objects in their order;
        marks are not cleared. */
    method SweepPhase()
      modifies this
      ensures objects == old(MarkedOnly(objects)) && roots == old(roots)
    {
      var kept: seq<VMObject> := [];
      var i := 0;
      while i < |objects|
        invariant i <= |objects|
        invariant kept + MarkedOnly(objects[i..]) == MarkedOnly(objects)
      {
        assert objects[i..] == [objects[i]] + objects[i + 1..];
        if objects[i].marked {
          kept := kept + [objects[i]];
        }
        i := i + 1;
      }
      objects := kept;
    }

    /** `collect`: the mark phase, then the sweep phase. Every root still
        in the list survives; an object that was neither marked before nor
        a root is dropped. */
    method Collect(alive: set<VMObject>)
      requires forall o :: o in objects ==> o in alive
      modifies this, roots
      ensures roots == old(roots) && objects == MarkedOnly(old(objects))
      ensures forall o :: o in old(objects) && o in roots ==> o in objects
      ensures forall o :: o in old(objects) && !old(o.marked) && o !in roots ==> o !in objects
    {
      MarkPhase(alive);
      SweepPhase();
      MarkedOnlyExact(old(objects));
    }
  }

  /** The part of `VM` that `store_name` and `load_name` touch: the module
      whose name pool sizes the table, and the table of global words. */
  class VM {
    const program: Bytekod.Module
    var globals: seq<bv64>

    /** `VM::new`: an empty table. */
    constructor (program: Bytekod.Module)
      ensures this.program == program && globals == []
    {
      this.program := program;
      globals := [];
    }

    /** `store_name`: the object's word is written at the index; an index
        still out of range after the resize panics (None). */
    method StoreName(nameIndex: bv32, obj: Object) returns (r: Option<Object>)
      modifies this
      ensures r.Some? <==> RuntimeSpec.StoreName(old(globals), |program.namePool|, nameIndex as nat, Encode(obj)).Some?
      ensures r.Some? ==>
                r.value == obj && globals == RuntimeSpec.StoreName(old(globals), |program.namePool|, nameIndex as nat, Encode(obj)).value
    {
      var index := nameIndex as nat;
      if |globals| <= index {
        globals := Resize(globals, |program.namePool|);
      }
      if index >= |globals| {
        return None;
      }
      globals := globals[index := Encode(obj)];
      r := Some(obj);
    }

    /** `load_name`: the word at the index as an object, or a panic (None). */
    method LoadName(nameIndex: bv32) returns (r: Option<Object>)
      ensures r.Some? <==> RuntimeSpec.LoadName(globals, nameIndex as nat).Some?
      ensures r.Some? ==> Encode(r.value) == RuntimeSpec.LoadName(globals, nameIndex as nat).value
    {
      if |globals| <= nameIndex as nat {
        return None;
      }
      r := Some(Object(globals[nameIndex as nat]));
    }
  }
}
