/**
 * The proteome registry (openmalaria-617 `proteome.cpp`): proteins with
 * positions and mutated alleles, proteome instances that carry a list of
 * mutations, and the static `ProteomeManager` that serialises both.
 *
 * Objects that point back to their parents are modelled as nested values:
 * a mutation is identified by the triple (protein name, position, allele),
 * which is exactly what `Mutation::operator==` compares.
 */
module Proteome {
  import Seqs
  import Decimal

  /** A mutation as `Mutation::operator==` sees it. */
  datatype Mutation = Mutation(proteinName: string, position: int, allele: char)

  /** `ProteinPosition`: a position number, its wild type and the alleles of its mutations in order. */
  datatype Position = Position(position: int, wildType: char, alleles: seq<char>)

  /** `Protein`: a name and its positions in order. */
  datatype Protein = Protein(name: string, positions: seq<Position>)

  /** `ProteomeInstance`: an id and its mutations in order. */
  datatype Instance = Instance(id: int, mutations: seq<Mutation>)

  /** The outcome of a lookup: a mutation, or the `int` the source throws. */
  datatype Lookup = Found(mutation: Mutation) | Raised(code: int)

  /** `Mutation::operator==`: same allele, same position number, same protein name. */
  predicate SameMutation(a: Mutation, b: Mutation)
  {
    a.allele == b.allele && a.position == b.position && a.proteinName == b.proteinName
  }

  /** The comparison of the three fields is exactly equality of the triples. */
  lemma SameMutationIsEquality(a: Mutation, b: Mutation)
    ensures SameMutation(a, b) <==> a == b
  {
  }

  // ---------------------------------------------------------------- construction

  /** `new ProteinPosition(protein, pos, wildType)`: appends a position without mutations. */
  function AddPosition(p: Protein, pos: int, wildType: char): (r: Protein)
    ensures r.name == p.name
    ensures |r.positions| == |p.positions| + 1
    ensures r.positions[..|p.positions|] == p.positions
    ensures r.positions[|p.positions|] == Position(pos, wildType, [])
  {
    Protein(p.name, p.positions + [Position(pos, wildType, [])])
  }

  /** `new Mutation(position, allele)`: appends the allele to the position's mutations. */
  function AddMutation(p: Position, allele: char): (r: Position)
    ensures r.position == p.position && r.wildType == p.wildType
    ensures |r.alleles| == |p.alleles| + 1 && r.alleles[..|p.alleles|] == p.alleles
    ensures r.alleles[|p.alleles|] == allele
  {
    Position(p.position, p.wildType, p.alleles + [allele])
  }

  // ---------------------------------------------------------------- lookups

  /** Index of the first protein called `name`, or |ps| when there is none. */
  function ProteinIndex(ps: seq<Protein>, name: string): (i: nat)
    ensures i <= |ps|
    ensures i < |ps| ==> ps[i].name == name
    ensures forall k :: 0 <= k < i ==> ps[k].name != name
  {
    if ps == [] then 0 else if ps[0].name == name then 0 else 1 + ProteinIndex(ps[1..], name)
  }

  /** Index of the first position numbered `pos`, or |ps| when there is none. */
  function PositionIndex(ps: seq<Position>, pos: int): (i: nat)
    ensures i <= |ps|
    ensures i < |ps| ==> ps[i].position == pos
    ensures forall k :: 0 <= k < i ==> ps[k].position != pos
  {
    if ps == [] then 0 else if ps[0].position == pos then 0 else 1 + PositionIndex(ps[1..], pos)
  }

  /** Index of the first occurrence of `allele`, or |as| when there is none. */
  function AlleleIndex(alleles: seq<char>, allele: char): (i: nat)
    ensures i <= |alleles|
    ensures i < |alleles| ==> alleles[i] == allele
    ensures forall k :: 0 <= k < i ==> alleles[k] != allele
  {
    if alleles == [] then 0 else if alleles[0] == allele then 0 else 1 + AlleleIndex(alleles[1..], allele)
  }

  /**
   * `ProteomeManager::getMutation`: the first protein with the name, its first
   * position with the number, and its allele; 1, 2 or 3 is thrown when the
   * protein, the position or the allele is unknown.
   */
  function LookupMutation(ps: seq<Protein>, name: string, pos: int, allele: char): Lookup
  {
    var i := ProteinIndex(ps, name);
    if i == |ps| then Raised(1)
    else
      var j := PositionIndex(ps[i].positions, pos);
      if j == |ps[i].positions| then Raised(2)
      else
        var k := AlleleIndex(ps[i].positions[j].alleles, allele);
        if k == |ps[i].positions[j].alleles| then Raised(3)
        else Found(Mutation(ps[i].name, ps[i].positions[j].position, ps[i].positions[j].alleles[k]))
  }

  /** The three error codes, and the mutation found, in terms of the registry's contents. */
  lemma LookupMutationMeaning(ps: seq<Protein>, name: string, pos: int, allele: char)
    ensures LookupMutation(ps, name, pos, allele) == Raised(1) <==>
            forall i :: 0 <= i < |ps| ==> ps[i].name != name
    ensures var i := ProteinIndex(ps, name);
            LookupMutation(ps, name, pos, allele) == Raised(2) <==>
            i < |ps| && forall j :: 0 <= j < |ps[i].positions| ==> ps[i].positions[j].position != pos
    ensures var i := ProteinIndex(ps, name);
            var j := if i < |ps| then PositionIndex(ps[i].positions, pos) else 0;
            LookupMutation(ps, name, pos, allele) == Raised(3) <==>
            i < |ps| && j < |ps[i].positions| && allele !in ps[i].positions[j].alleles
    ensures LookupMutation(ps, name, pos, allele).Found? ==>
            LookupMutation(ps, name, pos, allele).mutation == Mutation(name, pos, allele)
    ensures LookupMutation(ps, name, pos, allele).Raised? ==> LookupMutation(ps, name, pos, allele).code in {1, 2, 3}
  {
    var i := ProteinIndex(ps, name);
    if i < |ps| {
      var j := PositionIndex(ps[i].positions, pos);
      if j < |ps[i].positions| {
        var k := AlleleIndex(ps[i].positions[j].alleles, allele);
        if k == |ps[i].positions[j].alleles| {
          assert allele !in ps[i].positions[j].alleles;
        }
      }
    }
  }

  /** `ProteomeManager::getMutation` with its three search loops. */
  method GetMutation(ps: seq<Protein>, name: string, pos: int, allele: char) returns (r: Lookup)
    ensures r == LookupMutation(ps, name, pos, allele)
  {
    var i := 0;
    while i < |ps| && ps[i].name != name
      invariant 0 <= i <= |ps|
      invariant forall k :: 0 <= k < i ==> ps[k].name != name
    {
      i := i + 1;
    }
    ProteinIndexIsFirst(ps, name, i);
    if i == |ps| {
      return Raised(1);
    }
    var positions := ps[i].positions;
    var j := 0;
    while j < |positions| && positions[j].position != pos
      invariant 0 <= j <= |positions|
      invariant forall k :: 0 <= k < j ==> positions[k].position != pos
    {
      j := j + 1;
    }
    PositionIndexIsFirst(positions, pos, j);
    if j == |positions| {
      return Raised(2);
    }
    var alleles := positions[j].alleles;
    var k := 0;
    while k < |alleles| && alleles[k] != allele
      invariant 0 <= k <= |alleles|
      invariant forall m :: 0 <= m < k ==> alleles[m] != allele
    {
      k := k + 1;
    }
    AlleleIndexIsFirst(alleles, allele, k);
    if k == |alleles| {
      return Raised(3);
    }
    return Found(Mutation(ps[i].name, positions[j].position, alleles[k]));
  }

  lemma ProteinIndexIsFirst(ps: seq<Protein>, name: string, i: nat)
    requires i <= |ps| && (i < |ps| ==> ps[i].name == name)
    requires forall k :: 0 <= k < i ==> ps[k].name != name
    ensures ProteinIndex(ps, name) == i
  {
  }

  lemma PositionIndexIsFirst(ps: seq<Position>, pos: int, i: nat)
    requires i <= |ps| && (i < |ps| ==> ps[i].position == pos)
    requires forall k :: 0 <= k < i ==> ps[k].position != pos
    ensures PositionIndex(ps, pos) == i
  {
  }

  lemma AlleleIndexIsFirst(alleles: seq<char>, allele: char, i: nat)
    requires i <= |alleles| && (i < |alleles| ==> alleles[i] == allele)
    requires forall k :: 0 <= k < i ==> alleles[k] != allele
    ensures AlleleIndex(alleles, allele) == i
  {
  }

  /** Some mutation of the instance equals `m`. */
  predicate Carries(inst: Instance, m: Mutation)
  {
    exists j :: 0 <= j < |inst.mutations| && SameMutation(m, inst.mutations[j])
  }

  /** `ProteomeInstance::hasMutations`: every listed mutation equals one of the instance's. */
  method HasMutations(inst: Instance, wanted: seq<Mutation>) returns (b: bool)
    ensures b <==> forall i :: 0 <= i < |wanted| ==> Carries(inst, wanted[i])
  {
    var i := 0;
    while i < |wanted|
      invariant 0 <= i <= |wanted|
      invariant forall k :: 0 <= k < i ==> Carries(inst, wanted[k])
    {
      var j := 0;
      while j < |inst.mutations| && !SameMutation(wanted[i], inst.mutations[j])
        invariant 0 <= j <= |inst.mutations|
        invariant forall m :: 0 <= m < j ==> !SameMutation(wanted[i], inst.mutations[m])
      {
        j := j + 1;
      }
      if j == |inst.mutations| {
        assert !Carries(inst, wanted[i]);
        return false;
      }
      i := i + 1;
    }
    return true;
  }

  // ---------------------------------------------------------------- streams

  /** A whitespace-separated item of the text stream: a word, a number or a character. */
  datatype Token = Word(w: string) | Num(n: int) | Chr(c: char)

  /** A parse: the value and the unread rest, a stream that does not fit, or a thrown code. */
  datatype Parsed<T> = Done(value: T, rest: seq<Token>) | Malformed | Thrown(code: int)

  function WriteAlleles(alleles: seq<char>): seq<Token>
  {
    if alleles == [] then [] else [Chr(alleles[0])] + WriteAlleles(alleles[1..])
  }

  /** `ProteinPosition::write`. */
  function WritePosition(p: Position): seq<Token>
  {
    [Num(p.position), Chr(p.wildType), Num(|p.alleles|)] + WriteAlleles(p.alleles)
  }

  function WritePositions(ps: seq<Position>): seq<Token>
  {
    if ps == [] then [] else WritePosition(ps[0]) + WritePositions(ps[1..])
  }

  /** `Protein::write`. */
  function WriteProtein(p: Protein): seq<Token>
  {
    [Word(p.name), Num(|p.positions|)] + WritePositions(p.positions)
  }

  function WriteProteins(ps: seq<Protein>): seq<Token>
  {
    if ps == [] then [] else WriteProtein(ps[0]) + WriteProteins(ps[1..])
  }

  function WriteMutations(ms: seq<Mutation>): seq<Token>
  {
    if ms == [] then []
    else [Word(ms[0].proteinName), Num(ms[0].position), Chr(ms[0].allele)] + WriteMutations(ms[1..])
  }

  /** `ProteomeInstance::write`. */
  function WriteInstance(inst: Instance): seq<Token>
  {
    [Num(inst.id), Num(|inst.mutations|)] + WriteMutations(inst.mutations)
  }

  function WriteInstances(insts: seq<Instance>): seq<Token>
  {
    if insts == [] then [] else WriteInstance(insts[0]) + WriteInstances(insts[1..])
  }

  /** `ProteomeManager::write`: the proteins, then the instances, each list led by its size. */
  function WriteManager(ps: seq<Protein>, insts: seq<Instance>): seq<Token>
  {
    [Num(|ps|)] + WriteProteins(ps) + [Num(|insts|)] + WriteInstances(insts)
  }

  /** Reads a count (a `size_t`): a non-negative number. */
  function ReadCount(s: seq<Token>): Parsed<nat>
  {
    if |s| > 0 && s[0].Num? && s[0].n >= 0 then Done(s[0].n, s[1..]) else Malformed
  }

  function ReadAlleles(s: seq<Token>, n: nat): Parsed<seq<char>>
    decreases n
  {
    if n == 0 then Done([], s)
    else if |s| == 0 || !s[0].Chr? then Malformed
    else match ReadAlleles(s[1..], n - 1)
      case Done(a, rest) => Done([s[0].c] + a, rest)
      case Malformed => Malformed
      case Thrown(c) => Thrown(c)
  }

  /** `ProteinPosition(protein, in)`: number, wild type, then the counted alleles. */
  function ReadPosition(s: seq<Token>): Parsed<Position>
  {
    if |s| < 2 || !s[0].Num? || !s[1].Chr? then Malformed
    else match ReadCount(s[2..])
      case Done(n, s1) =>
        (match ReadAlleles(s1, n)
          case Done(a, rest) => Done(Position(s[0].n, s[1].c, a), rest)
          case Malformed => Malformed
          case Thrown(c) => Thrown(c))
      case Malformed => Malformed
      case Thrown(c) => Thrown(c)
  }

  function ReadPositions(s: seq<Token>, n: nat): Parsed<seq<Position>>
    decreases n
  {
    if n == 0 then Done([], s)
    else match ReadPosition(s)
      case Done(p, s1) =>
        (match ReadPositions(s1, n - 1)
          case Done(ps, rest) => Done([p] + ps, rest)
          case Malformed => Malformed
          case Thrown(c) => Thrown(c))
      case Malformed => Malformed
      case Thrown(c) => Thrown(c)
  }

  /** `Protein(in)`: name, then the counted positions. */
  function ReadProtein(s: seq<Token>): Parsed<Protein>
  {
    if |s| < 1 || !s[0].Word? then Malformed
    else match ReadCount(s[1..])
      case Done(n, s1) =>
        (match ReadPositions(s1, n)
          case Done(ps, rest) => Done(Protein(s[0].w, ps), rest)
          case Malformed => Malformed
          case Thrown(c) => Thrown(c))
      case Malformed => Malformed
      case Thrown(c) => Thrown(c)
  }

  function ReadProteins(s: seq<Token>, n: nat): Parsed<seq<Protein>>
    decreases n
  {
    if n == 0 then Done([], s)
    else match ReadProtein(s)
      case Done(p, s1) =>
        (match ReadProteins(s1, n - 1)
          case Done(ps, rest) => Done([p] + ps, rest)
          case Malformed => Malformed
          case Thrown(c) => Thrown(c))
      case Malformed => Malformed
      case Thrown(c) => Thrown(c)
  }

  /** Reads n (name, position, allele) triples, resolving each in the proteins read so far. */
  function ReadMutations(s: seq<Token>, n: nat, ps: seq<Protein>): Parsed<seq<Mutation>>
    decreases n
  {
    if n == 0 then Done([], s)
    else if |s| < 3 || !s[0].Word? || !s[1].Num? || !s[2].Chr? then Malformed
    else match LookupMutation(ps, s[0].w, s[1].n, s[2].c)
      case Raised(c) => Thrown(c)
      case Found(m) =>
        (match ReadMutations(s[3..], n - 1, ps)
          case Done(ms, rest) => Done([m] + ms, rest)
          case Malformed => Malformed
          case Thrown(c) => Thrown(c))
  }

  /** `ProteomeInstance(in)`: id, then the counted mutations. */
  function ReadInstance(s: seq<Token>, ps: seq<Protein>): Parsed<Instance>
  {
    if |s| < 1 || !s[0].Num? then Malformed
    else match ReadCount(s[1..])
      case Done(n, s1) =>
        (match ReadMutations(s1, n, ps)
          case Done(ms, rest) => Done(Instance(s[0].n, ms), rest)
          case Malformed => Malformed
          case Thrown(c) => Thrown(c))
      case Malformed => Malformed
      case Thrown(c) => Thrown(c)
  }

  function ReadInstances(s: seq<Token>, n: nat, ps: seq<Protein>): Parsed<seq<Instance>>
    decreases n
  {
    if n == 0 then Done([], s)
    else match ReadInstance(s, ps)
      case Done(inst, s1) =>
        (match ReadInstances(s1, n - 1, ps)
          case Done(insts, rest) => Done([inst] + insts, rest)
          case Malformed => Malformed
          case Thrown(c) => Thrown(c))
      case Malformed => Malformed
      case Thrown(c) => Thrown(c)
  }

  /** `ProteomeManager::read` after clearing: proteins first, then instances resolved against them. */
  function ReadManager(s: seq<Token>): Parsed<(seq<Protein>, seq<Instance>)>
  {
    match ReadCount(s)
      case Done(np, s1) =>
        (match ReadProteins(s1, np)
          case Done(ps, s2) =>
            (match ReadCount(s2)
              case Done(ni, s3) =>
                (match ReadInstances(s3, ni, ps)
                  case Done(insts, rest) => Done((ps, insts), rest)
                  case Malformed => Malformed
                  case Thrown(c) => Thrown(c))
              case Malformed => Malformed
              case Thrown(c) => Thrown(c))
          case Malformed => Malformed
          case Thrown(c) => Thrown(c))
      case Malformed => Malformed
      case Thrown(c) => Thrown(c)
  }

  /** Reading proteins looks nothing up, so it never throws: only instances do. */
  lemma {:induction false} AllelesNeverThrow(s: seq<Token>, n: nat)
    ensures !ReadAlleles(s, n).Thrown?
    decreases n
  {
    if n > 0 && |s| > 0 && s[0].Chr? {
      AllelesNeverThrow(s[1..], n - 1);
    }
  }

  lemma {:induction false} PositionsNeverThrow(s: seq<Token>, n: nat)
    ensures !ReadPositions(s, n).Thrown?
    decreases n
  {
    if n > 0 {
      if |s| >= 2 && s[0].Num? && s[1].Chr? && ReadCount(s[2..]).Done? {
        AllelesNeverThrow(ReadCount(s[2..]).rest, ReadCount(s[2..]).value);
      }
      if ReadPosition(s).Done? {
        PositionsNeverThrow(ReadPosition(s).rest, n - 1);
      }
    }
  }

  lemma {:induction false} ProteinsNeverThrow(s: seq<Token>, n: nat)
    ensures !ReadProteins(s, n).Thrown?
    decreases n
  {
    if n > 0 {
      if |s| >= 1 && s[0].Word? && ReadCount(s[1..]).Done? {
        PositionsNeverThrow(ReadCount(s[1..]).rest, ReadCount(s[1..]).value);
      }
      if ReadProtein(s).Done? {
        ProteinsNeverThrow(ReadProtein(s).rest, n - 1);
      }
    }
  }

  /** The instances pushed before an instance read stops: those read whole, in order. */
  function InstancesKept(s: seq<Token>, n: nat, ps: seq<Protein>): seq<Instance>
    decreases n
  {
    if n == 0 then []
    else match ReadInstance(s, ps)
      case Done(inst, s1) => [inst] + InstancesKept(s1, n - 1, ps)
      case Malformed => []
      case Thrown(_) => []
  }

  /**
   * The registries `read` leaves behind: what it pushed before it stopped,
   * which is everything read when it does not stop early.
   */
  function ManagerKept(s: seq<Token>): (seq<Protein>, seq<Instance>)
  {
    match ReadCount(s)
      case Done(np, s1) =>
        (match ReadProteins(s1, np)
          case Done(ps, s2) =>
            (match ReadCount(s2)
              case Done(ni, s3) => (ps, InstancesKept(s3, ni, ps))
              case Malformed => (ps, [])
              case Thrown(_) => (ps, []))
          case Malformed => ([], [])
          case Thrown(_) => ([], []))
      case Malformed => ([], [])
      case Thrown(_) => ([], [])
  }

  /** When every instance is read, the kept instances are the ones read. */
  lemma {:induction false} InstancesKeptWhenDone(s: seq<Token>, n: nat, ps: seq<Protein>)
    ensures ReadInstances(s, n, ps).Done? ==> InstancesKept(s, n, ps) == ReadInstances(s, n, ps).value
    ensures ReadInstances(s, n, ps).Thrown? ==> |InstancesKept(s, n, ps)| < n
    decreases n
  {
    if n > 0 {
      match ReadInstance(s, ps)
      case Done(inst, s1) => InstancesKeptWhenDone(s1, n - 1, ps);
      case Malformed =>
      case Thrown(_) =>
    }
  }

  /**
   * A read that completes keeps exactly its result; one that throws keeps
   * every protein and fewer instances than the stream announces.
   */
  lemma ManagerKeptMeaning(s: seq<Token>)
    ensures ReadManager(s).Done? ==> ManagerKept(s) == ReadManager(s).value
    ensures ReadManager(s).Thrown? ==>
              && ReadCount(s).Done? && ReadProteins(ReadCount(s).rest, ReadCount(s).value).Done?
              && var pr := ReadProteins(ReadCount(s).rest, ReadCount(s).value);
                 && ReadCount(pr.rest).Done?
                 && ManagerKept(s).0 == pr.value
                 && |ManagerKept(s).1| < ReadCount(pr.rest).value
  {
    match ReadCount(s) {
      case Done(np, s1) =>
        ProteinsNeverThrow(s1, np);
        match ReadProteins(s1, np) {
          case Done(ps, s2) =>
            match ReadCount(s2) {
              case Done(ni, s3) => InstancesKeptWhenDone(s3, ni, ps);
              case Malformed =>
              case Thrown(_) =>
            }
          case Malformed =>
          case Thrown(_) =>
        }
      case Malformed =>
      case Thrown(_) =>
    }
  }


  lemma {:induction false} AllelesRoundTrip(a: seq<char>, rest: seq<Token>)
    ensures ReadAlleles(WriteAlleles(a) + rest, |a|) == Done(a, rest)
  {
    if a != [] {
      AllelesRoundTrip(a[1..], rest);
      assert WriteAlleles(a) + rest == [Chr(a[0])] + (WriteAlleles(a[1..]) + rest);
      assert [a[0]] + a[1..] == a;
    }
  }

  lemma PositionRoundTrip(p: Position, rest: seq<Token>)
    ensures ReadPosition(WritePosition(p) + rest) == Done(p, rest)
  {
    var s := WritePosition(p) + rest;
    assert s[2..] == [Num(|p.alleles|)] + (WriteAlleles(p.alleles) + rest);
    assert s[2..][1..] == WriteAlleles(p.alleles) + rest;
    AllelesRoundTrip(p.alleles, rest);
  }

  lemma {:induction false} PositionsRoundTrip(ps: seq<Position>, rest: seq<Token>)
    ensures ReadPositions(WritePositions(ps) + rest, |ps|) == Done(ps, rest)
  {
    if ps != [] {
      Seqs.AppendAssoc(WritePosition(ps[0]), WritePositions(ps[1..]), rest);
      PositionRoundTrip(ps[0], WritePositions(ps[1..]) + rest);
      PositionsRoundTrip(ps[1..], rest);
      Seqs.ConsTail(ps);
    }
  }

  lemma ProteinRoundTrip(p: Protein, rest: seq<Token>)
    ensures ReadProtein(WriteProtein(p) + rest) == Done(p, rest)
  {
    var s := WriteProtein(p) + rest;
    assert s[1..] == [Num(|p.positions|)] + (WritePositions(p.positions) + rest);
    assert s[1..][1..] == WritePositions(p.positions) + rest;
    PositionsRoundTrip(p.positions, rest);
  }

  lemma {:induction false} ProteinsRoundTrip(ps: seq<Protein>, rest: seq<Token>)
    ensures ReadProteins(WriteProteins(ps) + rest, |ps|) == Done(ps, rest)
  {
    if ps != [] {
      Seqs.AppendAssoc(WriteProtein(ps[0]), WriteProteins(ps[1..]), rest);
      ProteinRoundTrip(ps[0], WriteProteins(ps[1..]) + rest);
      ProteinsRoundTrip(ps[1..], rest);
      Seqs.ConsTail(ps);
    }
  }


  /** Every mutation of every instance is one the registry's lookup resolves to itself. */
  predicate Resolvable(ps: seq<Protein>, insts: seq<Instance>)
  {
    forall i, k :: 0 <= i < |insts| && 0 <= k < |insts[i].mutations| ==>
      LookupMutation(ps, insts[i].mutations[k].proteinName, insts[i].mutations[k].position,
                     insts[i].mutations[k].allele) == Found(insts[i].mutations[k])
  }

  /** Reading a resolvable mutation in front of a readable list reads both. */
  lemma ReadMutationsCons(m: Mutation, s: seq<Token>, n: nat, ps: seq<Protein>, ms: seq<Mutation>, rest: seq<Token>)
    requires LookupMutation(ps, m.proteinName, m.position, m.allele) == Found(m)
    requires ReadMutations(s, n, ps) == Done(ms, rest)
    ensures ReadMutations([Word(m.proteinName), Num(m.position), Chr(m.allele)] + s, n + 1, ps) == Done([m] + ms, rest)
  {
    var t := [Word(m.proteinName), Num(m.position), Chr(m.allele)] + s;
    assert t[3..] == s;
  }

  lemma {:induction false} MutationsRoundTrip(ms: seq<Mutation>, ps: seq<Protein>, rest: seq<Token>)
    requires forall k :: 0 <= k < |ms| ==>
      LookupMutation(ps, ms[k].proteinName, ms[k].position, ms[k].allele) == Found(ms[k])
    ensures ReadMutations(WriteMutations(ms) + rest, |ms|, ps) == Done(ms, rest)
  {
    if ms != [] {
      forall k | 0 <= k < |ms[1..]|
        ensures LookupMutation(ps, ms[1..][k].proteinName, ms[1..][k].position, ms[1..][k].allele) == Found(ms[1..][k])
      {
        assert ms[1..][k] == ms[k + 1];
      }
      MutationsRoundTrip(ms[1..], ps, rest);
      assert LookupMutation(ps, ms[0].proteinName, ms[0].position, ms[0].allele) == Found(ms[0]);
      ReadMutationsCons(ms[0], WriteMutations(ms[1..]) + rest, |ms| - 1, ps, ms[1..], rest);
      Seqs.AppendAssoc([Word(ms[0].proteinName), Num(ms[0].position), Chr(ms[0].allele)], WriteMutations(ms[1..]), rest);
      Seqs.ConsTail(ms);
    }
  }

  lemma InstanceRoundTrip(inst: Instance, ps: seq<Protein>, rest: seq<Token>)
    requires Resolvable(ps, [inst])
    ensures ReadInstance(WriteInstance(inst) + rest, ps) == Done(inst, rest)
  {
    var s := WriteInstance(inst) + rest;
    assert s[1..] == [Num(|inst.mutations|)] + (WriteMutations(inst.mutations) + rest);
    assert s[1..][1..] == WriteMutations(inst.mutations) + rest;
    forall k | 0 <= k < |inst.mutations|
      ensures LookupMutation(ps, inst.mutations[k].proteinName, inst.mutations[k].position,
                             inst.mutations[k].allele) == Found(inst.mutations[k])
    {
      assert [inst][0] == inst;
    }
    MutationsRoundTrip(inst.mutations, ps, rest);
  }

  lemma {:induction false} InstancesRoundTrip(insts: seq<Instance>, ps: seq<Protein>, rest: seq<Token>)
    requires Resolvable(ps, insts)
    ensures ReadInstances(WriteInstances(insts) + rest, |insts|, ps) == Done(insts, rest)
  {
    if insts != [] {
      assert WriteInstances(insts) + rest == WriteInstance(insts[0]) + (WriteInstances(insts[1..]) + rest);
      assert Resolvable(ps, [insts[0]]) by {
        forall i, k | 0 <= i < 1 && 0 <= k < |[insts[0]][i].mutations|
          ensures LookupMutation(ps, [insts[0]][i].mutations[k].proteinName, [insts[0]][i].mutations[k].position,
                                 [insts[0]][i].mutations[k].allele) == Found([insts[0]][i].mutations[k])
        {
          assert [insts[0]][i] == insts[0];
        }
      }
      InstanceRoundTrip(insts[0], ps, WriteInstances(insts[1..]) + rest);
      assert Resolvable(ps, insts[1..]) by {
        forall i, k | 0 <= i < |insts[1..]| && 0 <= k < |insts[1..][i].mutations|
          ensures LookupMutation(ps, insts[1..][i].mutations[k].proteinName, insts[1..][i].mutations[k].position,
                                 insts[1..][i].mutations[k].allele) == Found(insts[1..][i].mutations[k])
        {
          assert insts[1..][i] == insts[i + 1];
        }
      }
      InstancesRoundTrip(insts[1..], ps, rest);
      assert [insts[0]] + insts[1..] == insts;
    }
  }

  /**
   * Writing the registries and reading them back reproduces proteins and
   * instances in order, provided every instance's mutations resolve in the
   * proteins (as they do when the instances were built from them).
   */
  lemma ManagerRoundTrip(ps: seq<Protein>, insts: seq<Instance>, rest: seq<Token>)
    requires Resolvable(ps, insts)
    requires forall k :: 0 <= k < |ps| ==> Printable(ps[k])
    ensures ReadManager(WriteManager(ps, insts) + rest) == Done((ps, insts), rest)
  {
    var s3 := WriteInstances(insts) + rest;
    var s2 := [Num(|insts|)] + s3;
    var s1 := WriteProteins(ps) + s2;
    var s := WriteManager(ps, insts) + rest;
    assert s == [Num(|ps|)] + s1;
    assert ReadCount(s) == Done(|ps|, s1) by { assert s[1..] == s1; }
    ProteinsRoundTrip(ps, s2);
    assert ReadCount(s2) == Done(|insts|, s3) by { assert s2[1..] == s3; }
    InstancesRoundTrip(insts, ps, rest);
  }

  /**
   * A name `>>` reads back as one string: not empty and without white space.
   * The token stream does not split names, so the round trip asks for these.
   */
  predicate IsWord(w: string)
  {
    w != [] && forall i :: 0 <= i < |w| ==> !Decimal.IsSpace(w[i])
  }

  /**
   * A protein the text stream reads back as written: its name is one word and
   * every wild type and allele is a character `>>` into a `char` does not skip.
   */
  predicate Printable(p: Protein)
  {
    IsWord(p.name) &&
    forall j :: 0 <= j < |p.positions| ==>
      !Decimal.IsSpace(p.positions[j].wildType) &&
      forall k :: 0 <= k < |p.positions[j].alleles| ==> !Decimal.IsSpace(p.positions[j].alleles[k])
  }

  /**
   * As written: reading an instance raises `currentID` to its id when that is
   * larger, although `currentID` is the id the NEXT new instance will take.
   */
  function RaisedID(current: int, insts: seq<Instance>): (r: int)
    ensures r >= current
    ensures forall i :: 0 <= i < |insts| ==> r >= insts[i].id
    decreases insts
  {
    if insts == [] then current
    else RaisedID(if current < insts[0].id then insts[0].id else current, insts[1..])
  }

  /**
   * With the ids as written, a fresh registry that reads back instances 0
   * and 1 hands id 1 to the next new instance although instance 1 exists.
   */
  lemma RaisedIDReusesLoadedID()
    ensures var loaded := [Instance(0, []), Instance(1, [])];
            RaisedID(0, loaded) == loaded[1].id
  {
  }

  /** Corrected: after reading, `currentID` is past every loaded id. */
  function NextFreeID(current: int, insts: seq<Instance>): (r: int)
    decreases insts
  {
    if insts == [] then current
    else NextFreeID(if current <= insts[0].id then insts[0].id + 1 else current, insts[1..])
  }

  /** The corrected counter never goes down and exceeds every loaded id, so new ids are unused. */
  lemma {:induction false} NextFreeIDIsFresh(current: int, insts: seq<Instance>)
    ensures NextFreeID(current, insts) >= current
    ensures forall i :: 0 <= i < |insts| ==> insts[i].id < NextFreeID(current, insts)
    decreases insts
  {
    if insts != [] {
      var c := if current <= insts[0].id then insts[0].id + 1 else current;
      NextFreeIDIsFresh(c, insts[1..]);
      forall i | 0 <= i < |insts| ensures insts[i].id < NextFreeID(current, insts) {
        if i > 0 { assert insts[i] == insts[1..][i - 1]; }
      }
    }
  }

  // ---------------------------------------------------------------- the registry

  /** The static state of `ProteomeManager` and `ProteomeInstance::currentID`. */
  class ProteomeManager {
    var proteins: seq<Protein>
    var instances: seq<Instance>
    var currentID: int

    constructor ()
      ensures proteins == [] && instances == [] && currentID == 0
    {
      proteins, instances, currentID := [], [], 0;
    }

    /** `ProteomeManager::addProtein`. */
    method AddProtein(p: Protein)
      modifies this
      ensures proteins == old(proteins) + [p]
      ensures instances == old(instances) && currentID == old(currentID)
    {
      proteins := proteins + [p];
    }

    /** `ProteomeManager::addInstance`. */
    method AddInstance(inst: Instance)
      modifies this
      ensures instances == old(instances) + [inst]
      ensures proteins == old(proteins) && currentID == old(currentID)
    {
      instances := instances + [inst];
    }

    /** `new ProteomeInstance()`: the next id, then `currentID` moves on by one. */
    method NewInstance() returns (inst: Instance)
      modifies this
      ensures inst == Instance(old(currentID), [])
      ensures currentID == old(currentID) + 1
      ensures proteins == old(proteins) && instances == old(instances)
    {
      inst := Instance(currentID, []);
      currentID := currentID + 1;
    }

    /** `initProteomeModule`: protein CRT with position 76 (wild type K) and mutation T; two instances. */
    method InitProteomeModule()
      modifies this
      ensures proteins == old(proteins) + [Protein("CRT", [Position(76, 'K', ['T'])])]
      ensures instances == old(instances) +
        [Instance(old(currentID), []), Instance(old(currentID) + 1, [Mutation("CRT", 76, 'T')])]
      ensures currentID == old(currentID) + 2
    {
      var crt := Protein("CRT", []);
      crt := AddPosition(crt, 76, 'K');
      var pos := AddMutation(crt.positions[0], 'T');
      crt := Protein(crt.name, [pos]);
      AddProtein(crt);
      ghost var before := instances;
      var first := NewInstance();
      AddInstance(first);
      var second := NewInstance();
      second := Instance(second.id, second.mutations + [Mutation("CRT", 76, 'T')]);
      AddInstance(second);
      assert second.mutations == [Mutation("CRT", 76, 'T')];
      assert instances == before + [first] + [second];
    }

    /**
     * `ProteomeManager::read`: both registries are cleared, then proteins and
     * instances are loaded and pushed one by one. A failed lookup throws with
     * the registries holding what was pushed before it. `currentID` follows
     * the corrected counter `NextFreeID`, raised past each pushed id; the
     * source raises it only to the id itself (`RaisedID`), which
     * `RaisedIDReusesLoadedID` shows hands out an id already in use.
     */
    method Read(s: seq<Token>) returns (r: Parsed<()>)
      modifies this
      ensures ReadManager(s).Done? <==> r.Done?
      ensures ReadManager(s).Thrown? ==> r == Thrown(ReadManager(s).code)
      ensures r.Done? ==> (proteins, instances) == ReadManager(s).value && r.rest == ReadManager(s).rest
      ensures r.Thrown? ==> (proteins, instances) == ManagerKept(s)
      ensures !r.Malformed? ==> currentID == NextFreeID(old(currentID), instances)
      ensures !r.Malformed? ==> forall i :: 0 <= i < |instances| ==> instances[i].id < currentID
    {
      proteins, instances := [], [];
      ManagerKeptMeaning(s);
      match ReadManager(s)
      case Done(v, rest) =>
        proteins, instances := v.0, v.1;
        RaiseCurrentID();
        r := Done((), rest);
      case Thrown(c) =>
        proteins, instances := ManagerKept(s).0, ManagerKept(s).1;
        RaiseCurrentID();
        r := Thrown(c);
      case Malformed =>
        r := Malformed;
    }

    /** The raising of `currentID` by each loaded instance in turn. */
    method RaiseCurrentID()
      modifies this
      ensures proteins == old(proteins) && instances == old(instances)
      ensures currentID == NextFreeID(old(currentID), instances)
      ensures forall i :: 0 <= i < |instances| ==> instances[i].id < currentID
    {
      var i := 0;
      while i < |instances|
        invariant 0 <= i <= |instances|
        invariant proteins == old(proteins) && instances == old(instances)
        invariant NextFreeID(old(currentID), instances) == NextFreeID(currentID, instances[i..])
      {
        assert instances[i..][1..] == instances[i + 1..];
        if currentID <= instances[i].id {
          currentID := instances[i].id + 1;
        }
        i := i + 1;
      }
      NextFreeIDIsFresh(old(currentID), instances);
    }
  }
}
