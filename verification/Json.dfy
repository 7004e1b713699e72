/** JSON values with binary leaves, and the rewriting that moves binary leaves out of a value
    and back: a leaf becomes a numbered placeholder object in the text and its bytes become
    an attachment.  Arrays and objects are one constructor, because every traversal visits
    the children of both alike; an object lists its keys beside its children. */
module Json {
  import opened Options

  type Byte = x: int | 0 <= x < 256
  type Bytes = seq<Byte>

  datatype Keys = Unkeyed | Keyed(names: seq<string>)

  datatype Json =
    | Null
    | Bool(b: bool)
    | Int(n: int)
    | Float(bits: nat)     // a finite double, known by its bit pattern
    | Str(s: string)
    | Binary(bytes: Bytes)
    | Node(keys: Keys, children: seq<Json>)

  // ----- Shape -----

  /** Position of a key, or the number of keys when it is absent. */
  function KeyIndex(names: seq<string>, key: string): (i: nat)
    ensures i <= |names|
    ensures i < |names| ==> names[i] == key
  {
    if names == [] || names[0] == key then 0 else 1 + KeyIndex(names[1..], key)
  }

  function Member(j: Json, key: string): Option<Json> {
    if j.Node? && j.keys.Keyed? then
      var i := KeyIndex(j.keys.names, key);
      if i < |j.keys.names| && i < |j.children| then Some(j.children[i]) else None
    else None
  }

  predicate StringLess(a: string, b: string) {
    if b == "" then false
    else if a == "" then true
    else a[0] < b[0] || (a[0] == b[0] && StringLess(a[1..], b[1..]))
  }

  /** One name per child, in the increasing order an object keeps its keys in. */
  predicate KeysFit(keys: Keys, count: nat) {
    keys.Keyed? ==>
      && |keys.names| == count
      && forall i, j :: 0 <= i < j < |keys.names| ==> StringLess(keys.names[i], keys.names[j])
  }

  /** Object keys are in order and integers fit 64 bits, as the library keeps them. */
  predicate WellFormed(j: Json)
    decreases j, 1
  {
    && (j.Int? ==> -0x8000_0000_0000_0000 <= j.n < 0x1_0000_0000_0000_0000)
    && (j.Node? ==> KeysFit(j.keys, |j.children|) && AllWellFormed(j.children))
  }

  predicate AllWellFormed(js: seq<Json>)
    decreases js, 0
  {
    js == [] || (WellFormed(js[0]) && AllWellFormed(js[1..]))
  }

  /** The binary leaves from left to right. */
  function Leaves(j: Json): seq<Bytes>
    decreases j, 1
  {
    if j.Binary? then [j.bytes] else if j.Node? then AllLeaves(j.children) else []
  }

  function AllLeaves(js: seq<Json>): seq<Bytes>
    decreases js, 0
  {
    if js == [] then [] else Leaves(js[0]) + AllLeaves(js[1..])
  }

  // ----- Placeholders -----

  predicate IsPlaceholder(j: Json) {
    Member(j, "_placeholder") == Some(Bool(true))
  }

  function Placeholder(index: nat): Json {
    Node(Keyed(["_placeholder", "num"]), [Bool(true), Int(index)])
  }

  /** The number of a placeholder object, or -1 when it has no usable one. */
  function PlaceholderIndex(j: Json): int {
    match Member(j, "num")
    case Some(Int(n)) => if n < 0 then -1 else n
    case _ => -1
  }

  lemma {:induction false} StringLessStrict(a: string)
    ensures !StringLess(a, a)
  {
    if a != "" {
      StringLessStrict(a[1..]);
    }
  }

  /** In a well-formed object a key has one place. */
  lemma MemberAt(j: Json, i: nat)
    requires WellFormed(j) && j.Node? && j.keys.Keyed? && i < |j.keys.names|
    ensures i < |j.children| && Member(j, j.keys.names[i]) == Some(j.children[i])
  {
    var names := j.keys.names;
    forall a, b | 0 <= a < b < |names|
      ensures names[a] != names[b]
    {
      StringLessStrict(names[a]);
    }
    KeyIndexFinds(names, i);
  }

  lemma {:induction false} KeyIndexFinds(names: seq<string>, i: nat)
    requires i < |names|
    ensures KeyIndex(names, names[i]) <= i
  {
    if i > 0 {
      KeyIndexFinds(names[1..], i - 1);
    }
  }

  /** An object is a placeholder exactly when it maps "_placeholder" to true, whatever else it
      has, and its number is what it maps "num" to, if that is an integer from zero on. */
  lemma PlaceholderIff(j: Json)
    requires WellFormed(j)
    ensures
      IsPlaceholder(j) <==>
      j.Node? && j.keys.Keyed? && |j.children| == |j.keys.names|
      && exists i :: 0 <= i < |j.keys.names| && j.keys.names[i] == "_placeholder" && j.children[i] == Bool(true)
    ensures
      j.Node? && j.keys.Keyed? ==>
      forall i, n :: 0 <= i < |j.keys.names| && i < |j.children| &&
                     j.keys.names[i] == "num" && j.children[i] == Int(n) ==>
        PlaceholderIndex(j) == if n >= 0 then n else -1
  {
    if j.Node? && j.keys.Keyed? {
      forall i | 0 <= i < |j.keys.names|
        ensures i < |j.children| && Member(j, j.keys.names[i]) == Some(j.children[i])
      {
        MemberAt(j, i);
      }
    }
  }

  predicate NoPlaceholder(j: Json)
    decreases j, 1
  {
    !IsPlaceholder(j) && (j.Node? ==> NonePlaceholder(j.children))
  }

  predicate NonePlaceholder(js: seq<Json>)
    decreases js, 0
  {
    js == [] || (NoPlaceholder(js[0]) && NonePlaceholder(js[1..]))
  }

  /** The numbers of the outermost placeholders from left to right. */
  function Slots(j: Json): seq<int>
    decreases j, 1
  {
    if IsPlaceholder(j) then [PlaceholderIndex(j)] else if j.Node? then AllSlots(j.children) else []
  }

  function AllSlots(js: seq<Json>): seq<int>
    decreases js, 0
  {
    if js == [] then [] else Slots(js[0]) + AllSlots(js[1..])
  }

  // ----- The three traversals -----

  /** `deconstruct_binary`, entered when `n` attachments have been collected already: the
      rewritten value and the attachments it adds. */
  function Deconstruct(j: Json, n: nat): (Json, seq<Bytes>)
    decreases j, 1
  {
    if j.Binary? then (Placeholder(n), [j.bytes])
    else if j.Node? then
      var (children, added) := DeconstructAll(j.children, n);
      (Node(j.keys, children), added)
    else (j, [])
  }

  function DeconstructAll(js: seq<Json>, n: nat): (seq<Json>, seq<Bytes>)
    decreases js, 0
  {
    if js == [] then ([], [])
    else
      var (first, added) := Deconstruct(js[0], n);
      var (rest, more) := DeconstructAll(js[1..], n + |added|);
      ([first] + rest, added + more)
  }

  /** `collect_placeholder_indices`: the set of indices after visiting `j`, or nothing when a
      placeholder has no index, one out of range, or one seen before. */
  function Collect(j: Json, count: int, seen: set<int>): Option<set<int>>
    decreases j, 1
  {
    if IsPlaceholder(j) then
      var index := PlaceholderIndex(j);
      if index < 0 || index >= count || index in seen then None else Some(seen + {index})
    else if j.Node? then CollectAll(j.children, count, seen)
    else Some(seen)
  }

  function CollectAll(js: seq<Json>, count: int, seen: set<int>): Option<set<int>>
    decreases js, 0
  {
    if js == [] then Some(seen)
    else
      match Collect(js[0], count, seen)
      case None => None
      case Some(more) => CollectAll(js[1..], count, more)
  }

  predicate HasValidPlaceholders(j: Json, count: int) {
    match Collect(j, count, {})
    case None => false
    case Some(seen) => |seen| == count
  }

  predicate InRange(slots: seq<int>, count: int) {
    forall x :: x in slots ==> 0 <= x < count
  }

  lemma RangeSplit(a: seq<int>, b: seq<int>, count: int)
    ensures InRange(a + b, count) <==> InRange(a, count) && InRange(b, count)
  {
    assert forall x :: x in a + b <==> x in a || x in b;
    assert InRange(a + b, count) ==> InRange(a, count) && InRange(b, count) by {
      assert forall x :: x in a ==> x in a + b;
      assert forall x :: x in b ==> x in a + b;
    }
  }

  /** `reconstruct_binary`; it indexes the attachments without a check. */
  function Reconstruct(j: Json, attachments: seq<Bytes>): Json
    requires InRange(Slots(j), |attachments|)
    decreases j, 1
  {
    if IsPlaceholder(j) then
      assert PlaceholderIndex(j) in Slots(j);
      Binary(attachments[PlaceholderIndex(j)])
    else if j.Node? then Node(j.keys, ReconstructAll(j.children, attachments))
    else j
  }

  function ReconstructAll(js: seq<Json>, attachments: seq<Bytes>): (r: seq<Json>)
    requires InRange(AllSlots(js), |attachments|)
    ensures |r| == |js|
    decreases js, 0
  {
    if js == [] then []
    else
      RangeSplit(Slots(js[0]), AllSlots(js[1..]), |attachments|);
      [Reconstruct(js[0], attachments)] + ReconstructAll(js[1..], attachments)
  }

  // ----- Deconstruction -----

  /** A binary leaf becomes a placeholder with the next number, and its bytes an attachment. */
  lemma LeafBecomesPlaceholder(bytes: Bytes, n: nat)
    ensures
      Deconstruct(Binary(bytes), n) ==
      (Node(Keyed(["_placeholder", "num"]), [Bool(true), Int(n)]), [bytes])
  {
  }

  /** Children rewritten one by one keep their number and their kind. */
  lemma {:induction false} DeconstructAllShape(js: seq<Json>, n: nat)
    ensures |DeconstructAll(js, n).0| == |js|
    ensures forall i :: 0 <= i < |js| ==> (DeconstructAll(js, n).0[i] == Bool(true) <==> js[i] == Bool(true))
    decreases |js|
  {
    if js != [] {
      DeconstructAllShape(js[1..], n + |Deconstruct(js[0], n).1|);
    }
  }

  lemma DeconstructPlaceholder(j: Json, n: nat)
    ensures IsPlaceholder(Deconstruct(j, n).0) <==> IsPlaceholder(j) || j.Binary?
  {
    if j.Node? {
      DeconstructAllShape(j.children, n);
    } else if j.Binary? {
      assert Placeholder(n).keys.names[0] == "_placeholder";
    }
  }

  lemma TwoChildren(a: Json, b: Json)
    ensures AllLeaves([a, b]) == Leaves(a) + Leaves(b)
    ensures AllWellFormed([a, b]) <==> WellFormed(a) && WellFormed(b)
  {
    var pair := [a, b];
    assert pair[1..] == [b] && [b][1..] == [];
    assert AllLeaves([b]) == Leaves(b) + AllLeaves([]);
    assert AllLeaves([b]) == Leaves(b);
    assert AllWellFormed([b]) <==> WellFormed(b) && AllWellFormed([]);
  }

  lemma PlaceholderParts(n: nat)
    ensures AllLeaves(Placeholder(n).children) == [] && (n < 0x8000_0000 ==> AllWellFormed(Placeholder(n).children))
  {
    TwoChildren(Bool(true), Int(n));
    assert Placeholder(n).children == [Bool(true), Int(n)];
  }

  /** Nothing binary stays behind, and the attachments are the leaves in order. */
  lemma {:induction false} DeconstructLeaves(j: Json, n: nat)
    ensures Leaves(Deconstruct(j, n).0) == [] && Deconstruct(j, n).1 == Leaves(j)
    decreases j, 1
  {
    if j.Binary? {
      PlaceholderParts(n);
    } else if j.Node? {
      DeconstructAllLeaves(j.children, n);
    }
  }

  lemma {:induction false} DeconstructAllLeaves(js: seq<Json>, n: nat)
    ensures AllLeaves(DeconstructAll(js, n).0) == [] && DeconstructAll(js, n).1 == AllLeaves(js)
    decreases js, 0
  {
    if js != [] {
      DeconstructLeaves(js[0], n);
      DeconstructAllLeaves(js[1..], n + |Deconstruct(js[0], n).1|);
      assert DeconstructAll(js, n).0[1..] == DeconstructAll(js[1..], n + |Deconstruct(js[0], n).1|).0;
    }
  }

  lemma PlaceholderWellFormed(n: nat)
    requires n < 0x8000_0000
    ensures WellFormed(Placeholder(n))
  {
    PlaceholderParts(n);
    assert "_placeholder"[0] < "num"[0];
  }

  lemma {:induction false} DeconstructWellFormed(j: Json, n: nat)
    requires WellFormed(j) && n + |Deconstruct(j, n).1| <= 0x8000_0000
    ensures WellFormed(Deconstruct(j, n).0)
    decreases j, 1
  {
    if j.Binary? {
      PlaceholderWellFormed(n);
    } else if j.Node? {
      DeconstructAllShape(j.children, n);
      DeconstructAllWellFormed(j.children, n);
    }
  }

  lemma {:induction false} DeconstructAllWellFormed(js: seq<Json>, n: nat)
    requires AllWellFormed(js) && n + |DeconstructAll(js, n).1| <= 0x8000_0000
    ensures AllWellFormed(DeconstructAll(js, n).0)
    decreases js, 0
  {
    if js != [] {
      var k := n + |Deconstruct(js[0], n).1|;
      DeconstructWellFormed(js[0], n);
      DeconstructAllWellFormed(js[1..], k);
      assert DeconstructAll(js, n).0[1..] == DeconstructAll(js[1..], k).0;
    }
  }

  /** n, n+1, ..., n+k-1 */
  function From(n: nat, k: nat): (r: seq<int>)
    ensures |r| == k && forall i :: 0 <= i < k ==> r[i] == n + i
  {
    seq(k, i => n + i)
  }

  lemma FromConcat(n: nat, a: nat, b: nat)
    ensures From(n, a) + From(n + a, b) == From(n, a + b)
  {
  }

  /** Without placeholders of its own, a value leaves its attachments numbered in order. */
  lemma {:induction false} DeconstructSlots(j: Json, n: nat)
    requires NoPlaceholder(j)
    ensures Slots(Deconstruct(j, n).0) == From(n, |Deconstruct(j, n).1|)
    decreases j, 1
  {
    DeconstructPlaceholder(j, n);
    if j.Binary? {
      assert PlaceholderIndex(Placeholder(n)) == n by {
        assert KeyIndex(["_placeholder", "num"], "num") == 1 by {
          assert ["_placeholder", "num"][1..] == ["num"];
        }
      }
    } else if j.Node? {
      DeconstructAllSlots(j.children, n);
    }
  }

  lemma {:induction false} DeconstructAllSlots(js: seq<Json>, n: nat)
    requires NonePlaceholder(js)
    ensures AllSlots(DeconstructAll(js, n).0) == From(n, |DeconstructAll(js, n).1|)
    decreases js, 0
  {
    if js != [] {
      var k := |Deconstruct(js[0], n).1|;
      DeconstructSlots(js[0], n);
      DeconstructAllSlots(js[1..], n + k);
      assert DeconstructAll(js, n).0[1..] == DeconstructAll(js[1..], n + k).0;
      FromConcat(n, k, |DeconstructAll(js[1..], n + k).1|);
    }
  }

  // ----- Reconstruction -----

  lemma {:induction false} ReconstructAllShape(js: seq<Json>, attachments: seq<Bytes>)
    requires InRange(AllSlots(js), |attachments|)
    ensures forall i :: 0 <= i < |js| ==> (ReconstructAll(js, attachments)[i] == Bool(true) <==> js[i] == Bool(true))
    decreases |js|
  {
    if js != [] {
      RangeSplit(Slots(js[0]), AllSlots(js[1..]), |attachments|);
      ReconstructAllShape(js[1..], attachments);
    }
  }

  /** Reconstruction leaves no placeholder, whatever the value was. */
  lemma {:induction false} ReconstructClears(j: Json, attachments: seq<Bytes>)
    requires InRange(Slots(j), |attachments|)
    ensures NoPlaceholder(Reconstruct(j, attachments))
    decreases j, 1
  {
    if !IsPlaceholder(j) && j.Node? {
      ReconstructAllShape(j.children, attachments);
      ReconstructAllClears(j.children, attachments);
    }
  }

  lemma {:induction false} ReconstructAllClears(js: seq<Json>, attachments: seq<Bytes>)
    requires InRange(AllSlots(js), |attachments|)
    ensures NonePlaceholder(ReconstructAll(js, attachments))
    decreases js, 0
  {
    if js != [] {
      RangeSplit(Slots(js[0]), AllSlots(js[1..]), |attachments|);
      ReconstructClears(js[0], attachments);
      ReconstructAllClears(js[1..], attachments);
      assert ReconstructAll(js, attachments)[1..] == ReconstructAll(js[1..], attachments);
    }
  }

  /** The attachments picked by a list of slots. */
  function Pick(attachments: seq<Bytes>, slots: seq<int>): (r: seq<Bytes>)
    requires InRange(slots, |attachments|)
    ensures |r| == |slots| && forall i :: 0 <= i < |slots| ==> slots[i] in slots && r[i] == attachments[slots[i]]
  {
    seq(|slots|, i requires 0 <= i < |slots| => assert slots[i] in slots; attachments[slots[i]])
  }

  lemma PickConcat(attachments: seq<Bytes>, a: seq<int>, b: seq<int>)
    requires InRange(a, |attachments|) && InRange(b, |attachments|)
    ensures InRange(a + b, |attachments|)
    ensures Pick(attachments, a + b) == Pick(attachments, a) + Pick(attachments, b)
  {
    RangeSplit(a, b, |attachments|);
  }

  /** Each slot of a value without binary leaves receives its attachment, and nothing else
      is binary. */
  lemma {:induction false} ReconstructLeaves(j: Json, attachments: seq<Bytes>)
    requires InRange(Slots(j), |attachments|) && Leaves(j) == []
    ensures Leaves(Reconstruct(j, attachments)) == Pick(attachments, Slots(j))
    decreases j, 1
  {
    if !IsPlaceholder(j) && j.Node? {
      ReconstructAllLeaves(j.children, attachments);
    }
  }

  lemma {:induction false} ReconstructAllLeaves(js: seq<Json>, attachments: seq<Bytes>)
    requires InRange(AllSlots(js), |attachments|) && AllLeaves(js) == []
    ensures AllLeaves(ReconstructAll(js, attachments)) == Pick(attachments, AllSlots(js))
    decreases js, 0
  {
    if js != [] {
      RangeSplit(Slots(js[0]), AllSlots(js[1..]), |attachments|);
      ReconstructLeaves(js[0], attachments);
      ReconstructAllLeaves(js[1..], attachments);
      assert ReconstructAll(js, attachments)[1..] == ReconstructAll(js[1..], attachments);
      PickConcat(attachments, Slots(js[0]), AllSlots(js[1..]));
    }
  }

  /** `added` stands at position `n` of `attachments`. */
  predicate At(attachments: seq<Bytes>, n: nat, added: seq<Bytes>) {
    n + |added| <= |attachments| && attachments[n..n + |added|] == added
  }

  /** Reconstruction undoes deconstruction. */
  lemma {:induction false} ReconstructInverts(j: Json, n: nat, attachments: seq<Bytes>)
    requires NoPlaceholder(j) && At(attachments, n, Deconstruct(j, n).1)
    ensures InRange(Slots(Deconstruct(j, n).0), |attachments|)
    ensures Reconstruct(Deconstruct(j, n).0, attachments) == j
    decreases j, 1
  {
    DeconstructSlots(j, n);
    DeconstructPlaceholder(j, n);
    if j.Binary? {
      assert Slots(Placeholder(n)) == [PlaceholderIndex(Placeholder(n))];
      assert attachments[n] == attachments[n..n + 1][0];
    } else if j.Node? {
      ReconstructAllInverts(j.children, n, attachments);
    }
  }

  lemma AtSplit(attachments: seq<Bytes>, n: nat, added: seq<Bytes>, more: seq<Bytes>)
    requires At(attachments, n, added + more)
    ensures At(attachments, n, added) && At(attachments, n + |added|, more)
  {
    var k, all := n + |added|, added + more;
    assert all[..|added|] == added && all[|added|..] == more;
    assert attachments[n..k] == attachments[n..n + |all|][..|added|];
    assert attachments[k..k + |more|] == attachments[n..n + |all|][|added|..];
  }

  lemma {:induction false} ReconstructAllInverts(js: seq<Json>, n: nat, attachments: seq<Bytes>)
    requires NonePlaceholder(js) && At(attachments, n, DeconstructAll(js, n).1)
    ensures InRange(AllSlots(DeconstructAll(js, n).0), |attachments|)
    ensures ReconstructAll(DeconstructAll(js, n).0, attachments) == js
    decreases js, 0
  {
    DeconstructAllSlots(js, n);
    if js != [] {
      var (first, added) := Deconstruct(js[0], n);
      var k := n + |added|;
      var (rest, more) := DeconstructAll(js[1..], k);
      AtSplit(attachments, n, added, more);
      ReconstructInverts(js[0], n, attachments);
      ReconstructAllInverts(js[1..], k, attachments);
      assert DeconstructAll(js, n).0[1..] == rest;
    }
  }

  // ----- Validity of a header's placeholders -----

  function Elements(s: seq<int>): set<int> {
    set x | x in s
  }

  predicate Distinct(s: seq<int>) {
    forall i, j :: 0 <= i < j < |s| ==> s[i] != s[j]
  }

  /** The numbers 0 to n-1, each once, in some order. */
  predicate IsPermutation(s: seq<int>, n: int) {
    |s| == n && forall k :: 0 <= k < n ==> k in s
  }

  predicate Fits(slots: seq<int>, count: int, seen: set<int>) {
    InRange(slots, count) && Distinct(slots) && Elements(slots) !! seen
  }

  lemma ElementsConcat(a: seq<int>, b: seq<int>)
    ensures Elements(a + b) == Elements(a) + Elements(b)
  {
    assert forall x :: x in a + b <==> x in a || x in b;
  }

  lemma DistinctConcat(a: seq<int>, b: seq<int>)
    ensures Distinct(a + b) <==> Distinct(a) && Distinct(b) && Elements(a) !! Elements(b)
  {
    var c := a + b;
    if Distinct(c) {
      forall i, j | 0 <= i < |a| && 0 <= j < |b|
        ensures a[i] != b[j]
      {
        assert c[i] == a[i] && c[|a| + j] == b[j];
      }
      assert Distinct(a) by {
        assert forall i :: 0 <= i < |a| ==> a[i] == c[i];
      }
      assert Distinct(b) by {
        assert forall i :: 0 <= i < |b| ==> b[i] == c[|a| + i];
      }
    }
    if Distinct(a) && Distinct(b) && Elements(a) !! Elements(b) {
      forall i, j | 0 <= i < j < |c|
        ensures c[i] != c[j]
      {
        if i < |a| <= j {
          assert c[i] in Elements(a) && c[j] in Elements(b);
        }
      }
    }
  }

  lemma FitsConcat(a: seq<int>, b: seq<int>, count: int, seen: set<int>)
    ensures Fits(a + b, count, seen) <==> Fits(a, count, seen) && Fits(b, count, seen + Elements(a))
  {
    RangeSplit(a, b, count);
    ElementsConcat(a, b);
    DistinctConcat(a, b);
  }

  /** What the traversal with a set computes, in terms of the list of slots. */
  lemma {:induction false} CollectSlots(j: Json, count: int, seen: set<int>)
    ensures Collect(j, count, seen) == if Fits(Slots(j), count, seen) then Some(seen + Elements(Slots(j))) else None
    decreases j, 1
  {
    if IsPlaceholder(j) {
      assert Slots(j)[0] in Slots(j) && Elements(Slots(j)) == {Slots(j)[0]};
    } else if j.Node? {
      CollectAllSlots(j.children, count, seen);
    } else {
      assert seen + Elements([]) == seen;
    }
  }

  lemma {:induction false} CollectAllSlots(js: seq<Json>, count: int, seen: set<int>)
    ensures CollectAll(js, count, seen)
         == if Fits(AllSlots(js), count, seen) then Some(seen + Elements(AllSlots(js))) else None
    decreases js, 0
  {
    if js == [] {
      assert seen + Elements([]) == seen;
    } else {
      var a, b := Slots(js[0]), AllSlots(js[1..]);
      CollectSlots(js[0], count, seen);
      FitsConcat(a, b, count, seen);
      if Fits(a, count, seen) {
        CollectAllSlots(js[1..], count, seen + Elements(a));
        ElementsConcat(a, b);
        assert seen + Elements(a) + Elements(b) == seen + Elements(a + b);
      }
    }
  }

  /** A list has as many elements as positions exactly when they are all different. */
  lemma {:induction false} DistinctSize(s: seq<int>)
    ensures |Elements(s)| <= |s|
    ensures |Elements(s)| == |s| <==> Distinct(s)
  {
    if s != [] {
      var rest := s[1..];
      DistinctSize(rest);
      assert s == [s[0]] + rest;
      ElementsConcat([s[0]], rest);
      DistinctConcat([s[0]], rest);
      assert Elements([s[0]]) == {s[0]};
      assert Elements(s) == {s[0]} + Elements(rest);
    }
  }

  function Below(n: int): (r: set<int>)
    ensures forall k :: k in r <==> 0 <= k < n
    ensures |r| == if n < 0 then 0 else n
    decreases if n < 0 then 0 else n
  {
    if n <= 0 then {} else Below(n - 1) + {n - 1}
  }

  lemma SubsetOfSameSize(a: set<int>, b: set<int>)
    requires a <= b && |a| == |b|
    ensures a == b
  {
    assert b == a + (b - a);
  }

  lemma DistinctIsPermutation(s: seq<int>, n: int)
    requires InRange(s, n) && Distinct(s) && |Elements(s)| == n
    ensures IsPermutation(s, n)
  {
    DistinctSize(s);
    assert Elements(s) <= Below(n);
    SubsetOfSameSize(Elements(s), Below(n));
    forall k | 0 <= k < n
      ensures k in s
    {
      assert k in Below(n);
    }
  }

  lemma PermutationIsDistinct(s: seq<int>, n: int)
    requires n >= 0 && IsPermutation(s, n)
    ensures InRange(s, n) && Distinct(s) && |Elements(s)| == n
  {
    DistinctSize(s);
    var rest := Elements(s) - Below(n);
    assert Elements(s) == Below(n) + rest;
    assert |Elements(s)| == n + |rest|;
    assert rest == {};
    forall x | x in s
      ensures 0 <= x < n
    {
      assert x in Elements(s);
    }
  }

  /** Pigeonhole: in range, without repetition and n in number means every number once. */
  lemma PermutationIff(s: seq<int>, n: int)
    requires n >= 0
    ensures IsPermutation(s, n) <==> InRange(s, n) && Distinct(s) && |Elements(s)| == n
  {
    if IsPermutation(s, n) {
      PermutationIsDistinct(s, n);
    } else if InRange(s, n) && Distinct(s) && |Elements(s)| == n {
      DistinctIsPermutation(s, n);
    }
  }

  /** The check passes exactly when the outermost placeholders carry the numbers 0 to n-1,
      each once. */
  lemma ValidIffPermutation(j: Json, count: int)
    requires count >= 0
    ensures HasValidPlaceholders(j, count) <==> IsPermutation(Slots(j), count)
    ensures HasValidPlaceholders(j, count) ==> InRange(Slots(j), count)
  {
    CollectSlots(j, count, {});
    PermutationIff(Slots(j), count);
    assert {} + Elements(Slots(j)) == Elements(Slots(j));
  }
}
