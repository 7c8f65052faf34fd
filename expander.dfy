/** `src/components/expander.py` without its rendering: the id counter every
    `ProgramExpander` draws from, and the `ProgramsExpanders` registry, a list
    of expanders whose program names are kept pairwise distinct. */
module Expanders {
  import opened Wrappers
  import opened DockStats
  import opened Programs

  /** The class attribute `ProgramExpander.count`, shared by every expander. */
  class IdCounter {
    var count: nat

    constructor()
      ensures count == 1
    {
      count := 1;
    }
  }

  class ProgramExpander {
    const id: nat
    const program: Program
    var expand: bool

    /** Take the counter's value as id and advance the counter. */
    constructor(program: Program, expand: bool, counter: IdCounter)
      modifies counter
      ensures id == old(counter.count) && counter.count == old(counter.count) + 1
      ensures this.program == program && this.expand == expand
    {
      id := counter.count;
      counter.count := counter.count + 1;
      this.program := program;
      this.expand := expand;
    }
  }

  /** The program names of a list of expanders, in list order. */
  function NamesOf(es: seq<ProgramExpander>): (names: seq<string>)
    ensures |names| == |es|
    ensures forall i :: 0 <= i < |es| ==> names[i] == es[i].program.name
  {
    seq(|es|, i requires 0 <= i < |es| => es[i].program.name)
  }

  lemma NamesOfSnoc(es: seq<ProgramExpander>, e: ProgramExpander)
    ensures NamesOf(es + [e]) == NamesOf(es) + [e.program.name]
  {
  }

  ghost predicate DistinctNames(names: seq<string>)
  {
    forall i, j :: 0 <= i < j < |names| ==> names[i] != names[j]
  }

  ghost predicate IdsIncreasing(es: seq<ProgramExpander>)
  {
    forall i, j :: 0 <= i < j < |es| ==> es[i].id < es[j].id
  }

  /** The names `from_data_dict` appends for the dictionary keys `keys`, in
      iteration order: each key not already among `names` or added before. */
  function AddedNames(names: seq<string>, keys: seq<string>): (added: seq<string>)
    ensures |added| <= |keys|
    ensures forall n :: n in added ==> n in keys && n !in names
  {
    if keys == [] then []
    else
      var prev := AddedNames(names, keys[..|keys| - 1]);
      var k := keys[|keys| - 1];
      if k in names + prev then prev else prev + [k]
  }

  /** Appending the added names keeps a list of names duplicate-free. */
  lemma {:induction false} AddedNamesDistinct(names: seq<string>, keys: seq<string>)
    requires DistinctNames(names)
    ensures DistinctNames(names + AddedNames(names, keys))
    decreases |keys|
  {
    if keys != [] {
      var prev := AddedNames(names, keys[..|keys| - 1]);
      AddedNamesDistinct(names, keys[..|keys| - 1]);
      var k := keys[|keys| - 1];
      if k !in names + prev {
        assert names + (prev + [k]) == (names + prev) + [k];
        DistinctSnoc(names + prev, k);
      }
    }
  }

  lemma DistinctSnoc(names: seq<string>, n: string)
    requires DistinctNames(names) && n !in names
    ensures DistinctNames(names + [n])
  {
  }

  /** Deleting one entry keeps names unique and ids increasing. */
  lemma RemovePreserves(es: seq<ProgramExpander>, k: nat)
    requires k < |es| && DistinctNames(NamesOf(es)) && IdsIncreasing(es)
    ensures DistinctNames(NamesOf(es[..k] + es[k + 1..])) && IdsIncreasing(es[..k] + es[k + 1..])
  {
    var r := es[..k] + es[k + 1..];
    forall i | 0 <= i < |r| ensures r[i] == es[if i < k then i else i + 1] {
    }
    forall i, j | 0 <= i < j < |r| ensures NamesOf(r)[i] != NamesOf(r)[j] && r[i].id < r[j].id {
      var i', j' := if i < k then i else i + 1, if j < k then j else j + 1;
      assert NamesOf(es)[i'] != NamesOf(es)[j'];
    }
  }

  /** Offering key `k` extends the names added for the keys before it. */
  lemma AddedNamesStep(base: seq<string>, keys: seq<string>, k: nat, names: seq<string>)
    requires k < |keys| && names == base + AddedNames(base, keys[..k])
    ensures (if keys[k] in names then names else names + [keys[k]]) == base + AddedNames(base, keys[..k + 1])
  {
    assert keys[..k + 1][..k] == keys[..k];
  }

  lemma PrefixOfPrefix<T>(a: seq<T>, b: seq<T>, c: seq<T>)
    requires |a| <= |b| && b[..|a|] == a && |b| <= |c| && c[..|b|] == b
    ensures c[..|a|] == a
  {
    assert c[..|a|] == c[..|b|][..|a|];
  }

  /** Keys that are distinct and new are all added, in order. */
  lemma {:induction false} AddedNamesAll(names: seq<string>, keys: seq<string>)
    requires DistinctNames(keys)
    requires forall k :: k in keys ==> k !in names
    ensures AddedNames(names, keys) == keys
    decreases |keys|
  {
    if keys != [] {
      var init := keys[..|keys| - 1];
      AddedNamesAll(names, init);
      assert keys[|keys| - 1] !in init;
      assert keys == init + [keys[|keys| - 1]];
    }
  }

  /** The keys of a dictionary given as its items in iteration order. */
  function Keys(data: seq<(string, ProgramData)>): (keys: seq<string>)
    ensures |keys| == |data|
  {
    seq(|data|, i requires 0 <= i < |data| => data[i].0)
  }

  /** `e` was created by `from_data_dict` from one of the items of `data`:
      its program carries the item's name and tables, no flag is set and it
      is collapsed. */
  ghost predicate LoadedFrom(e: ProgramExpander, data: seq<(string, ProgramData)>)
    reads e, e.program
  {
    && (e.program.name, ProgramData(e.program.ligands, e.program.decoys)) in data
    && !e.program.dataInputted && !e.program.dataGenerated && !e.expand
  }

  class ProgramsExpanders {
    var expanders: seq<ProgramExpander>

    /** `names`. */
    function Names(): (names: seq<string>)
      reads this
      ensures |names| == |expanders|
      ensures forall i :: 0 <= i < |expanders| ==> names[i] == expanders[i].program.name
    {
      NamesOf(expanders)
    }

    /** Names are unique, ids grow along the list and the counter is past every id. */
    ghost predicate Valid(counter: IdCounter)
      reads this, counter
    {
      && DistinctNames(Names())
      && IdsIncreasing(expanders)
      && forall i :: 0 <= i < |expanders| ==> expanders[i].id < counter.count
    }

    /** The registry starts from an empty session list. */
    constructor(counter: IdCounter)
      ensures expanders == [] && Valid(counter)
    {
      expanders := [];
    }

    /** `__add_expander`: append unless the program's name is taken. */
    method AddExpander(e: ProgramExpander)
      modifies this
      ensures expanders == if e.program.name in old(Names()) then old(expanders) else old(expanders) + [e]
      ensures Names() == if e.program.name in old(Names()) then old(Names()) else old(Names()) + [e.program.name]
    {
      if e.program.name !in Names() {
        NamesOfSnoc(expanders, e);
        expanders := expanders + [e];
      }
    }

    /** `__add_program`: wrap the program in a new expander, which draws an
        id even when the name is taken and the expander is dropped. */
    method AddProgram(program: Program, expand: bool, counter: IdCounter)
      requires Valid(counter)
      modifies this, counter
      ensures Valid(counter)
      ensures counter.count == old(counter.count) + 1
      ensures program.name in old(Names()) ==> expanders == old(expanders)
      ensures program.name !in old(Names()) ==>
                && |expanders| == |old(expanders)| + 1
                && expanders[..|old(expanders)|] == old(expanders)
                && var e := expanders[|old(expanders)|];
                   fresh(e) && e.program == program && e.id == old(counter.count) && e.expand == expand
      ensures Names() == if program.name in old(Names()) then old(Names()) else old(Names()) + [program.name]
    {
      var e := new ProgramExpander(program, expand, counter);
      AddExpander(e);
    }

    /** `add_program_expander`: a new empty program named `name`. */
    method AddProgramExpander(name: string, expand: bool, counter: IdCounter)
      requires Valid(counter)
      modifies this, counter
      ensures Valid(counter)
      ensures counter.count == old(counter.count) + 1
      ensures name in old(Names()) ==> expanders == old(expanders)
      ensures name !in old(Names()) ==>
                && |expanders| == |old(expanders)| + 1
                && expanders[..|old(expanders)|] == old(expanders)
                && var e := expanders[|old(expanders)|];
                   && fresh(e) && fresh(e.program) && e.id == old(counter.count) && e.expand == expand
                   && e.program.name == name && e.program.ligands == EmptyTable && e.program.decoys == EmptyTable
                   && !e.program.dataInputted && !e.program.dataGenerated
      ensures Names() == if name in old(Names()) then old(Names()) else old(Names()) + [name]
    {
      var p := new Program(name);
      AddProgram(p, expand, counter);
    }

    /** One step of `from_data_dict`: a program named after item `k`, its
        tables loaded from the item, offered collapsed. The expanders from
        `start` on are all loaded from `data`, before and after. */
    method LoadItem(data: seq<(string, ProgramData)>, k: nat, counter: IdCounter, ghost start: nat)
      requires Valid(counter) && k < |data|
      requires start <= |expanders| && forall i :: start <= i < |expanders| ==> LoadedFrom(expanders[i], data)
      modifies this, counter
      ensures Valid(counter)
      ensures counter.count == old(counter.count) + 1
      ensures |old(expanders)| <= |expanders| && expanders[..|old(expanders)|] == old(expanders)
      ensures Names() == if data[k].0 in old(Names()) then old(Names()) else old(Names()) + [data[k].0]
      ensures forall i :: start <= i < |expanders| ==> LoadedFrom(expanders[i], data)
    {
      ghost var before := expanders;
      var p := new Program(data[k].0);
      p.FromDict(data[k].1);
      AddProgram(p, false, counter);
      forall i | start <= i < |expanders| ensures LoadedFrom(expanders[i], data) {
        if i < |before| {
          assert expanders[i] == before[i];
        }
      }
    }

    /** `from_data_dict`: one new program per item, tables from the item,
        added collapsed; names already present are skipped. */
    method FromDataDict(data: seq<(string, ProgramData)>, counter: IdCounter)
      requires Valid(counter)
      modifies this, counter
      ensures Valid(counter)
      ensures counter.count == old(counter.count) + |data|
      ensures |old(expanders)| <= |expanders| && expanders[..|old(expanders)|] == old(expanders)
      ensures Names() == old(Names()) + AddedNames(old(Names()), Keys(data))
      ensures forall i :: |old(expanders)| <= i < |expanders| ==> LoadedFrom(expanders[i], data)
    {
      ghost var before, base := expanders, Names();
      for k := 0 to |data|
        invariant Valid(counter)
        invariant counter.count == old(counter.count) + k
        invariant |before| <= |expanders| && expanders[..|before|] == before
        invariant Names() == base + AddedNames(base, Keys(data)[..k])
        invariant forall i :: |before| <= i < |expanders| ==> LoadedFrom(expanders[i], data)
      {
        ghost var mid, midNames := expanders, Names();
        LoadItem(data, k, counter, |before|);
        AddedNamesStep(base, Keys(data), k, midNames);
        PrefixOfPrefix(before, mid, expanders);
      }
      assert Keys(data)[..|data|] == Keys(data);
    }

    /** `__remove_expander`: `list.remove`, which deletes the first
        occurrence and raises when there is none. */
    method RemoveExpander(e: ProgramExpander, ghost counter: IdCounter) returns (removed: bool)
      requires Valid(counter)
      modifies this
      ensures Valid(counter)
      ensures removed <==> e in old(expanders)
      ensures !removed ==> expanders == old(expanders)
      ensures removed ==> exists k :: 0 <= k < |old(expanders)| && old(expanders)[k] == e && e !in old(expanders)[..k]
                                      && expanders == old(expanders)[..k] + old(expanders)[k + 1..]
    {
      var k := 0;
      while k < |expanders| && expanders[k] != e
        invariant 0 <= k <= |expanders|
        invariant e !in expanders[..k]
      {
        k := k + 1;
      }
      if k == |expanders| {
        assert expanders[..k] == expanders;
        removed := false;
      } else {
        RemovePreserves(expanders, k);
        expanders := expanders[..k] + expanders[k + 1..];
        removed := true;
      }
    }
  
    /** Every program has had data entered. */
    ghost predicate AllInputted()
      reads this, set i | 0 <= i < |expanders| :: expanders[i].program
    {
      forall i :: 0 <= i < |expanders| ==> expanders[i].program.dataInputted
    }

    /** Every program has had its curves generated. */
    ghost predicate AllGenerated()
      reads this, set i | 0 <= i < |expanders| :: expanders[i].program
    {
      forall i :: 0 <= i < |expanders| ==> expanders[i].program.dataGenerated
    }

    /** `all_data_inputted`: false on an empty list, else whether every
        program has data. */
    method AllDataInputted() returns (b: bool)
      ensures b <==> |expanders| > 0 && AllInputted()
    {
      if |expanders| == 0 {
        return false;
      }
      b := true;
      for i := 0 to |expanders|
        invariant b <==> forall j :: 0 <= j < i ==> expanders[j].program.dataInputted
      {
        b := b && expanders[i].program.dataInputted;
      }
    }

    /** `all_data_generated`: false on an empty list, else whether every
        program has been generated. */
    method AllDataGenerated() returns (b: bool)
      ensures b <==> |expanders| > 0 && AllGenerated()
    {
      var bools := [];
      for i := 0 to |expanders|
        invariant |bools| == i
        invariant forall j :: 0 <= j < i ==> bools[j] == expanders[j].program.dataGenerated
      {
        bools := bools + [expanders[i].program.dataGenerated];
      }
      if |bools| == 0 {
        return false;
      }
      b := true;
      for i := 0 to |expanders|
        invariant b <==> forall j :: 0 <= j < i ==> expanders[j].program.dataGenerated
      {
        b := b && expanders[i].program.dataGenerated;
      }
    }

    /** `generate`: generate every program in list order. The first program
        whose generation raises stops the loop: the programs before it are
        generated, it and the programs after it keep their state. Unique
        names make the programs distinct objects. */
    method Generate(computeCurves: (seq<Cell>, seq<Cell>) -> Option<Curves>) returns (err: Option<GenerateError>)
      requires DistinctNames(Names())
      modifies set i | 0 <= i < |expanders| :: expanders[i].program
      ensures err.None? ==> AllGenerated()
      ensures err.None? ==> forall i :: 0 <= i < |expanders| ==> GeneratedBy(expanders[i].program, computeCurves)
      ensures err.Some? ==>
                exists i :: 0 <= i < |expanders|
                  && !Generates(expanders[i].program.ligands, expanders[i].program.decoys, computeCurves)
                  && (forall j :: 0 <= j < i ==> GeneratedBy(expanders[j].program, computeCurves))
                  && (forall j :: i <= j < |expanders| ==> unchanged(expanders[j].program))
      ensures forall i :: 0 <= i < |expanders| ==>
                && expanders[i].program.ligands == old(expanders[i].program.ligands)
                && expanders[i].program.decoys == old(expanders[i].program.decoys)
                && expanders[i].program.dataInputted == old(expanders[i].program.dataInputted)
                && (old(expanders[i].program.dataGenerated) ==> expanders[i].program.dataGenerated)
    {
      for i := 0 to |expanders|
        invariant forall j :: 0 <= j < i ==>
                    && GeneratedBy(expanders[j].program, computeCurves)
                    && expanders[j].program.ligands == old(expanders[j].program.ligands)
                    && expanders[j].program.decoys == old(expanders[j].program.decoys)
                    && expanders[j].program.dataInputted == old(expanders[j].program.dataInputted)
        invariant forall j :: i <= j < |expanders| ==> unchanged(expanders[j].program)
      {
        forall j | 0 <= j < |expanders| && j != i ensures expanders[j].program != expanders[i].program {
          assert Names()[j] != Names()[i];
        }
        err := expanders[i].program.Generate(computeCurves);
        if err.Some? {
          assert !Generates(expanders[i].program.ligands, expanders[i].program.decoys, computeCurves);
          return;
        }
      }
      err := None;
    }

    /** `to_dict`: each program's name mapped to its tables, in list order. */
    method ToDict() returns (d: seq<(string, ProgramData)>)
      ensures Keys(d) == Names()
      ensures forall i :: 0 <= i < |d| ==>
                d[i].1 == ProgramData(expanders[i].program.ligands, expanders[i].program.decoys)
    {
      d := [];
      for i := 0 to |expanders|
        invariant |d| == i
        invariant forall j :: 0 <= j < i ==> d[j].0 == expanders[j].program.name
        invariant forall j :: 0 <= j < i ==>
                    d[j].1 == ProgramData(expanders[j].program.ligands, expanders[j].program.decoys)
      {
        var program := expanders[i].program;
        var tables := program.ToDict();
        d := d + [(program.name, tables)];
      }
    }
  }

  /** Saving a registry with `to_dict` and loading the result into an empty
      registry with `from_data_dict` gives back the same programs, by name
      and tables, in the same order. */
  method Reload(source: ProgramsExpanders, counter: IdCounter) returns (copy: ProgramsExpanders)
    requires source.Valid(counter)
    modifies counter
    ensures copy.Valid(counter)
    ensures copy.Names() == source.Names()
    ensures forall i :: 0 <= i < |copy.expanders| ==>
              && copy.expanders[i].program.ligands == source.expanders[i].program.ligands
              && copy.expanders[i].program.decoys == source.expanders[i].program.decoys
  {
    var d := source.ToDict();
    copy := new ProgramsExpanders(counter);
    copy.FromDataDict(d, counter);
    AddedNamesAll([], Keys(d));
    forall i | 0 <= i < |copy.expanders|
      ensures copy.expanders[i].program.ligands == source.expanders[i].program.ligands
      ensures copy.expanders[i].program.decoys == source.expanders[i].program.decoys
    {
      assert LoadedFrom(copy.expanders[i], d);
      assert copy.Names()[i] == Keys(d)[i];
      DistinctKeyLookup(d, i, copy.expanders[i].program.name,
                        ProgramData(copy.expanders[i].program.ligands, copy.expanders[i].program.decoys));
    }
  }

  /** In a dictionary's items, a key names exactly one item. */
  lemma DistinctKeyLookup(d: seq<(string, ProgramData)>, i: nat, name: string, value: ProgramData)
    requires DistinctNames(Keys(d)) && i < |d| && Keys(d)[i] == name && (name, value) in d
    ensures value == d[i].1
  {
    var j :| 0 <= j < |d| && d[j] == (name, value);
    assert Keys(d)[j] == name;
  }
}
