/**
 * The per-file symbol table of the rlog parser: branch_rev_list, a
 * growable array of (branch name, branch revision) pairs.
 */
module SymbolTable {
  import opened Wrappers

  /** One symbolic branch name and its (normalised) revision. */
  datatype BranchRev = BranchRev(name: string, rev: string)

  /** A slot that strbuf_init has emptied. */
  const EmptySlot := BranchRev("", "")

  /** The first position whose revision is `rev`; the search of branch_rev_list_find.
    * It is the same first-match linear lookup as Files.FindPath (cvsfile_find),
    * kept separate because the two search different records by different keys. */
  function FindIndex(items: seq<BranchRev>, rev: string): (r: Option<nat>)
    ensures r.Some? ==> r.value < |items| && items[r.value].rev == rev
    ensures r.Some? ==> forall j :: 0 <= j < r.value ==> items[j].rev != rev
    ensures r.None? <==> forall j :: 0 <= j < |items| ==> items[j].rev != rev
  {
    if items == [] then None
    else if items[0].rev == rev then Some(0)
    else
      match FindIndex(items[1..], rev)
      case None => None
      case Some(k) => Some(k + 1)
  }

  /** A pushed symbol is found, unless an earlier one has the same revision. */
  lemma {:induction false} FindIndexAppend(items: seq<BranchRev>, name: string, rev: string)
    ensures FindIndex(items + [BranchRev(name, rev)], rev)
         == if FindIndex(items, rev).Some? then FindIndex(items, rev) else Some(|items|)
  {
    var all := items + [BranchRev(name, rev)];
    if items != [] {
      assert all[1..] == items[1..] + [BranchRev(name, rev)];
      FindIndexAppend(items[1..], name, rev);
    }
  }

  /** Pushing a symbol does not change where any other revision is found. */
  lemma {:induction false} FindIndexAppendOther(items: seq<BranchRev>, b: BranchRev, rev: string)
    requires FindIndex(items, rev).Some?
    ensures FindIndex(items + [b], rev) == FindIndex(items, rev)
  {
    var all := items + [b];
    if items[0].rev != rev {
      assert all[1..] == items[1..] + [b];
      FindIndexAppendOther(items[1..], b, rev);
    }
  }

  /** git's alloc_nr: the next capacity of a growing array. */
  function AllocNr(x: nat): (r: nat)
    ensures r > x
  {
    (x + 16) * 3 / 2
  }

  /** The capacity rev_list_grow chooses when `nr` slots are needed and `size` exist. */
  function GrownSize(size: nat, nr: nat): (r: nat)
    ensures nr > size ==> r >= nr && r > size
    ensures nr <= size ==> r == size
  {
    if nr <= size then size else if AllocNr(size) < nr then nr else AllocNr(size)
  }

  /**
   * branch_rev_list: `slots` is the allocated array (its length is the C
   * `size`) and `nr` the number of slots in use. Slots beyond `nr` keep
   * whatever they held before a clear, as in the C array.
   */
  class BranchRevList {
    var slots: array<BranchRev>
    var nr: nat

    predicate Valid()
      reads this
    {
      nr <= slots.Length
    }

    /** The symbols in the list, in push order. */
    function Items(): seq<BranchRev>
      reads this, slots
      requires Valid()
    {
      slots[..nr]
    }

    /** branch_rev_list_init: an empty list with no storage. */
    constructor Init()
      ensures Valid() && Items() == [] && slots.Length == 0 && fresh(slots)
    {
      slots := new BranchRev[0];
      nr := 0;
    }

    /**
     * rev_list_grow: make room for `n` slots. A larger array keeps the old
     * slots and has its new slots emptied; the symbols in use are unchanged.
     */
    method Grow(n: nat)
      requires Valid()
      modifies this
      ensures Valid() && nr == old(nr)
      ensures slots.Length == GrownSize(old(slots.Length), n)
      ensures n <= old(slots.Length) ==> slots == old(slots)
      ensures n > old(slots.Length) ==> fresh(slots)
      ensures slots[..old(slots.Length)] == old(slots[..])
      ensures forall i :: old(slots.Length) <= i < slots.Length ==> slots[i] == EmptySlot
      ensures Items() == old(Items())
    {
      if n > slots.Length {
        var was := slots.Length;
        var size := GrownSize(was, n);
        assert size > was;
        var grown := new BranchRev[size];
        var i := 0;
        while i < was
          invariant 0 <= i <= was
          invariant grown[..i] == slots[..i]
          modifies grown
        {
          grown[i] := slots[i];
          i := i + 1;
        }
        while i < size
          invariant was <= i <= size
          invariant grown[..was] == slots[..]
          invariant forall j :: was <= j < i ==> grown[j] == EmptySlot
          modifies grown
        {
          grown[i] := EmptySlot;
          i := i + 1;
        }
        assert grown[..nr] == grown[..was][..nr];
        slots := grown;
      }
    }

    /**
     * branch_rev_list_push: append a symbol. strbuf_swap hands the caller
     * back what the reused slot held (empty for a new slot, a symbol from
     * before the last clear otherwise).
     */
    method Push(name: string, rev: string) returns (oldName: string, oldRev: string)
      requires Valid()
      modifies this, slots
      ensures Valid() && nr == old(nr) + 1 && (slots == old(slots) || fresh(slots))
      ensures Items() == old(Items()) + [BranchRev(name, rev)]
      ensures old(nr) < old(slots.Length) ==> oldName == old(slots[nr].name) && oldRev == old(slots[nr].rev)
      ensures old(nr) >= old(slots.Length) ==> oldName == "" && oldRev == ""
    {
      ghost var before := Items();
      ghost var reused := nr < slots.Length;
      ghost var slot := if reused then slots[nr] else EmptySlot;
      Grow(nr + 1);
      assert slots[nr] == slot;
      oldName := slots[nr].name;
      oldRev := slots[nr].rev;
      slots[nr] := BranchRev(name, rev);
      nr := nr + 1;
      assert Items() == before + [BranchRev(name, rev)];
    }

    /**
     * branch_rev_list_find: the name of the first symbol whose revision is
     * `rev`; when there is none, `name` keeps the caller's value `current`.
     */
    method Find(rev: string, current: string) returns (found: bool, name: string)
      requires Valid()
      ensures found <==> FindIndex(Items(), rev).Some?
      ensures found ==> name == Items()[FindIndex(Items(), rev).value].name
      ensures !found ==> name == current
    {
      var i := 0;
      while i < nr
        invariant 0 <= i <= nr
        invariant forall j :: 0 <= j < i ==> slots[j].rev != rev
      {
        if slots[i].rev == rev {
          assert Items()[i].rev == rev;
          FindIndexFirst(Items(), rev, i);
          return true, slots[i].name;
        }
        i := i + 1;
      }
      return false, current;
    }

    /** branch_rev_list_clear: forget the symbols, keep the storage. */
    method Clear()
      requires Valid()
      modifies this
      ensures Valid() && Items() == [] && slots == old(slots)
    {
      nr := 0;
    }

    /** branch_rev_list_release: free the storage and start over empty. */
    method Release()
      requires Valid()
      modifies this
      ensures Valid() && Items() == [] && slots.Length == 0
    {
      slots := new BranchRev[0];
      nr := 0;
    }
  }

  /** A match at `i` with none before it is the one FindIndex reports. */
  lemma {:induction false} FindIndexFirst(items: seq<BranchRev>, rev: string, i: nat)
    requires i < |items| && items[i].rev == rev
    requires forall j :: 0 <= j < i ==> items[j].rev != rev
    ensures FindIndex(items, rev) == Some(i)
  {
    if i > 0 {
      FindIndexFirst(items[1..], rev, i - 1);
    }
  }
}
