/** Turning engine values into host atoms: node_to_atom flattens a node tree,
    prop_to_atom builds the atom list of a property message. Both append to a
    list the caller owns; here that list goes in as `res` and comes back as `out`. */
module NodeAtoms {
  import opened MpvValues

  // ---------------------------------------------------------------------
  // Specification of node_to_atom

  /** The leaves that become exactly one atom each. */
  predicate IsScalar(n: Node) {
    n.NString? || n.NOsdString? || n.NFlag? || n.NInt64? || n.NDouble?
  }

  function FlagValue(b: bool): real {
    if b then 1.0 else 0.0
  }

  /** The atom one scalar leaf becomes: strings become symbols, everything else a number. */
  function LeafAtom(n: Node): (a: Atom)
    requires IsScalar(n)
    ensures a.Sym? <==> n.NString? || n.NOsdString?
    ensures a.Sym? ==> a.name == n.s
    ensures n.NFlag? ==> a == Float(if n.flag then 1.0 else 0.0)
    ensures n.NInt64? ==> a == Float(n.i as real)
    ensures n.NDouble? ==> a == Float(n.d)
  {
    match n
    case NString(s) => Sym(s)
    case NOsdString(s) => Sym(s)
    case NFlag(b) => Float(FlagValue(b))
    case NInt64(i) => Float(i as real)
    case NDouble(d) => Float(d)
  }

  /** The atoms node_to_atom appends for `n`. */
  function Flatten(n: Node): seq<Atom>
    decreases n, 1
  {
    match n
    case NArray(vs) => FlattenSeq(vs)
    case _ => if IsScalar(n) then [LeafAtom(n)] else []
  }

  /** The atoms the array loop appends for `vs`, one element after the other. */
  function FlattenSeq(vs: seq<Node>): seq<Atom>
    decreases vs, 0
  {
    if vs == [] then [] else FlattenSeq(vs[..|vs| - 1]) + Flatten(vs[|vs| - 1])
  }

  // An independent description: the scalar leaves reached through arrays, in index order.

  function Leaves(n: Node): seq<Node>
    decreases n, 1
  {
    match n
    case NArray(vs) => LeavesSeq(vs)
    case _ => if IsScalar(n) then [n] else []
  }

  function LeavesSeq(vs: seq<Node>): seq<Node>
    decreases vs, 0
  {
    if vs == [] then [] else Leaves(vs[0]) + LeavesSeq(vs[1..])
  }

  predicate AllScalar(ls: seq<Node>) {
    forall i :: 0 <= i < |ls| ==> IsScalar(ls[i])
  }

  /** One atom per leaf, in the same order. */
  function AtomsOf(ls: seq<Node>): (r: seq<Atom>)
    requires AllScalar(ls)
    ensures |r| == |ls|
    ensures forall i :: 0 <= i < |ls| ==> r[i] == LeafAtom(ls[i])
  {
    if ls == [] then [] else [LeafAtom(ls[0])] + AtomsOf(ls[1..])
  }

  lemma {:induction false} AtomsOfAppend(a: seq<Node>, b: seq<Node>)
    requires AllScalar(a) && AllScalar(b)
    ensures AllScalar(a + b)
    ensures AtomsOf(a + b) == AtomsOf(a) + AtomsOf(b)
  {
  }

  /** The array loop's output splits at any point of the array. */
  lemma {:induction false} FlattenSeqAppend(a: seq<Node>, b: seq<Node>)
    ensures FlattenSeq(a + b) == FlattenSeq(a) + FlattenSeq(b)
    decreases |b|
  {
    if b == [] {
      assert a + b == a;
    } else {
      var b' := b[..|b| - 1];
      assert (a + b)[..|a + b| - 1] == a + b';
      assert (a + b)[|a + b| - 1] == b[|b| - 1];
      FlattenSeqAppend(a, b');
    }
  }

  lemma FlattenSeqCons(v: Node, vs: seq<Node>)
    ensures FlattenSeq([v] + vs) == Flatten(v) + FlattenSeq(vs)
  {
    FlattenSeqAppend([v], vs);
    assert FlattenSeq([v]) == FlattenSeq([]) + Flatten(v);
  }

  /** node_to_atom appends one atom per scalar leaf reached through nested
      arrays, in index order; maps, byte arrays, node and none tags give nothing. */
  lemma {:induction false} FlattenIsLeafAtoms(n: Node)
    ensures AllScalar(Leaves(n))
    ensures Flatten(n) == AtomsOf(Leaves(n))
    decreases n, 1
  {
    match n
    case NArray(vs) => FlattenSeqIsLeafAtoms(vs);
    case _ =>
  }

  lemma {:induction false} FlattenSeqIsLeafAtoms(vs: seq<Node>)
    ensures AllScalar(LeavesSeq(vs))
    ensures FlattenSeq(vs) == AtomsOf(LeavesSeq(vs))
    decreases vs, 0
  {
    if vs != [] {
      FlattenIsLeafAtoms(vs[0]);
      FlattenSeqIsLeafAtoms(vs[1..]);
      AtomsOfAppend(Leaves(vs[0]), LeavesSeq(vs[1..]));
      FlattenSeqCons(vs[0], vs[1..]);
      assert [vs[0]] + vs[1..] == vs;
    }
  }

  /** A map, byte array, node or none element of an array adds nothing, wherever it stands. */
  lemma FlattenSkipsUnhandled(a: seq<Node>, m: Node, b: seq<Node>)
    requires !IsScalar(m) && !m.NArray?
    ensures FlattenSeq(a + [m] + b) == FlattenSeq(a + b)
  {
    FlattenSeqAppend(a + [m], b);
    FlattenSeqAppend(a, b);
    assert FlattenSeq(a + [m]) == FlattenSeq(a) + Flatten(m);
    assert (a + [m])[..|a + [m]| - 1] == a;
  }

  /** Nesting is transparent: an inner array contributes its atoms in place. */
  lemma FlattenNested(a: seq<Node>, inner: seq<Node>, b: seq<Node>)
    ensures Flatten(NArray(a + [NArray(inner)] + b)) == FlattenSeq(a) + FlattenSeq(inner) + FlattenSeq(b)
  {
    FlattenSeqAppend(a + [NArray(inner)], b);
    assert (a + [NArray(inner)])[..|a + [NArray(inner)]| - 1] == a;
  }

  // ---------------------------------------------------------------------
  // node_to_atom

  /** Appends the atoms of `node` to `res`; atoms already in `res` stay as they are. */
  method NodeToAtom(node: Node, res: seq<Atom>) returns (out: seq<Atom>)
    ensures out == res + Flatten(node)
    decreases node
  {
    match node
    case NString(s) =>
      out := res + [Sym(s)];
    case NOsdString(s) =>
      out := res + [Sym(s)];
    case NFlag(b) =>
      out := res + [Float(FlagValue(b))];
    case NInt64(i) =>
      out := res + [Float(i as real)];
    case NDouble(d) =>
      out := res + [Float(d)];
    case NArray(vs) =>
      out := res;
      var i := 0;
      while i < |vs|
        invariant 0 <= i <= |vs|
        invariant out == res + FlattenSeq(vs[..i])
      {
        assert vs[..i + 1][..i] == vs[..i];
        out := NodeToAtom(vs[i], out);
        i := i + 1;
      }
      assert vs[..|vs|] == vs;
    case NByteArray(_) =>
      out := res;   // reported on the host console, nothing appended
    case NMap(_, _) =>
      out := res;   // reported on the host console, nothing appended
    case NNode =>
      out := res;
    case NNone =>
      out := res;
  }

  // ---------------------------------------------------------------------
  // prop_to_atom

  function NameAtoms(name: Option<string>): seq<Atom> {
    if name.Some? then [Sym(name.value)] else []
  }

  /** The atoms that follow the name: one for a scalar payload, the flattened
      tree for a node, nothing for a null, array, map or byte-array payload. */
  function PayloadAtoms(data: Option<Payload>): seq<Atom> {
    match data
    case None => []
    case Some(PFlag(b)) => [Float(FlagValue(b))]
    case Some(PDouble(d)) => [Float(d)]
    case Some(PInt64(i)) => [Float(i as real)]
    case Some(PString(s)) => [Sym(s)]
    case Some(POsdString(s)) => [Sym(s)]
    case Some(PNode(n)) => Flatten(n)
    case Some(_) => []
  }

  /** The atoms prop_to_atom appends for a property. */
  function PropAtoms(p: EventProperty): seq<Atom> {
    NameAtoms(p.name) + PayloadAtoms(p.data)
  }

  /** What a property message holds, by the property's format. */
  lemma PropAtomsByFormat(p: EventProperty)
    ensures p.name.Some? ==> |PropAtoms(p)| >= 1 && PropAtoms(p)[0] == Sym(p.name.value)
    ensures p.name.None? ==> PropAtoms(p) == PayloadAtoms(p.data)
    ensures PropFormat(p) == FNone ==> PropAtoms(p) == NameAtoms(p.name)
    ensures PropFormat(p) == FFlag ==>
      PropAtoms(p) == NameAtoms(p.name) + [Float(if p.data.value.flag then 1.0 else 0.0)]
    ensures PropFormat(p) in {FString, FOsdString} ==>
      PropAtoms(p) == NameAtoms(p.name) + [Sym(p.data.value.s)]
    ensures PropFormat(p) == FInt64 ==> PropAtoms(p) == NameAtoms(p.name) + [Float(p.data.value.i as real)]
    ensures PropFormat(p) == FDouble ==> PropAtoms(p) == NameAtoms(p.name) + [Float(p.data.value.d)]
    ensures PropFormat(p) == FNode ==> PropAtoms(p) == NameAtoms(p.name) + Flatten(p.data.value.node)
    ensures PropFormat(p) in {FNodeArray, FNodeMap, FByteArray} ==> PropAtoms(p) == NameAtoms(p.name)
  {
  }

  /** Appends the atoms of property `p` to `res`. */
  method PropToAtom(p: EventProperty, res: seq<Atom>) returns (out: seq<Atom>)
    ensures out == res + PropAtoms(p)
  {
    out := res;
    if p.name.Some? {
      out := out + [Sym(p.name.value)];
    }
    if p.data.None? {
      return;
    }
    match p.data.value
    case PFlag(b) =>
      out := out + [Float(FlagValue(b))];
    case PDouble(d) =>
      out := out + [Float(d)];
    case PInt64(i) =>
      out := out + [Float(i as real)];
    case PString(s) =>
      out := out + [Sym(s)];
    case POsdString(s) =>
      out := out + [Sym(s)];
    case PNode(n) =>
      out := NodeToAtom(n, out);
    case PNodeArray(_) =>     // reported on standard output, nothing appended
    case PNodeMap(_, _) =>
    case PByteArray(_) =>
  }

  // ---------------------------------------------------------------------
  // The string case of prop_to_atom as written

  /** The characters a C string read at a machine word yields: the word's
      bytes, least significant first, up to the first zero byte, at most `k`. */
  function WordText(v: nat, k: nat): (r: string)
    ensures |r| <= k
  {
    if k == 0 || v % 256 == 0 then "" else [(v % 256) as char] + WordText(v / 256, k - 1)
  }

  /** For a STRING or OSD_STRING property the engine's data points at a
      `char*`, not at the characters. prop_to_atom casts the data itself to
      `char*`, so the symbol it interns is read from the bytes that hold the
      string's address `addr`: on a little-endian 64-bit machine the
      read stops within the eight bytes, since user-space addresses have zero
      high bytes. */
  function AddressText(addr: nat): (r: string)
    ensures |r| <= 8
  {
    WordText(addr % 0x1_0000_0000_0000_0000, 8)
  }

  /** The atoms that follow the name, as prop_to_atom computes them: the
      string cases intern the bytes of the string's address. */
  function PayloadAtomsAsWritten(data: Option<Payload>, addr: nat): (r: seq<Atom>)
    ensures data.Some? && (data.value.PString? || data.value.POsdString?) ==> r == [Sym(AddressText(addr))]
    ensures !(data.Some? && (data.value.PString? || data.value.POsdString?)) ==> r == PayloadAtoms(data)
  {
    match data
    case Some(PString(_)) => [Sym(AddressText(addr))]
    case Some(POsdString(_)) => [Sym(AddressText(addr))]
    case _ => PayloadAtoms(data)
  }

  function PropAtomsAsWritten(p: EventProperty, addr: nat): seq<Atom> {
    NameAtoms(p.name) + PayloadAtomsAsWritten(p.data, addr)
  }

  /** As written, a string property longer than eight characters is never sent
      with its value, whatever the address of the string; every other
      property is sent as intended. */
  lemma StringPropertyAsWritten(p: EventProperty, addr: nat)
    ensures PropFormat(p) !in {FString, FOsdString} ==> PropAtomsAsWritten(p, addr) == PropAtoms(p)
    ensures PropFormat(p) in {FString, FOsdString} && |p.data.value.s| > 8 ==>
      PropAtomsAsWritten(p, addr) != PropAtoms(p)
  {
    if PropFormat(p) in {FString, FOsdString} && |p.data.value.s| > 8 {
      var k := |NameAtoms(p.name)|;
      assert PropAtomsAsWritten(p, addr)[k] == Sym(AddressText(addr));
      assert PropAtoms(p)[k] == Sym(p.data.value.s);
    }
  }
}
