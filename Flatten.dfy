/**
  The flashcard data of api/index.py: a three-level grouping
  (major category -> sub-category -> list of items) read from a JSON file,
  flattened into one ordered list of four-field cards.

  This module is the specification: the leaf items of the grouping in
  traversal order (`Leaves`), the card built from one leaf (`CardFromLeaf`),
  and the outcome of flattening (`Flatten`), with the properties the loader
  promises proved about them.
 */
module CardFlattening {

  /** One parsed JSON item: its keys and their text values. */
  type Item = map<string, string>

  /** The sub-categories of one major category, in JSON object order. */
  type SubCategories = seq<(string, seq<Item>)>

  /** The parsed file: major categories in JSON object order. */
  type Nested = seq<(string, SubCategories)>

  /** A card as served by the cards endpoint: exactly these four text fields. */
  datatype Card = Card(term: string, definition: string, category: string, subCategory: string)

  /** A leaf item together with the keys of the groups that enclose it. */
  datatype Leaf = Leaf(category: string, subCategory: string, item: Item)

  /** The lookup that raised: `item[key]` on an item without `key`. */
  datatype LoadError = MissingKey(key: string)

  datatype Result<T> = Ok(value: T) | Err(error: LoadError)

  const TermKey: string := "用語"
  const DefinitionKey: string := "説明"

  // ---------------------------------------------------------------------
  // Traversal order
  // ---------------------------------------------------------------------

  /** The leaves of one sub-category, in item order. */
  function ItemLeaves(category: string, subCategory: string, items: seq<Item>): (ls: seq<Leaf>)
    ensures |ls| == |items|
    ensures forall m :: 0 <= m < |items| ==> ls[m] == Leaf(category, subCategory, items[m])
  {
    if items == [] then []
    else ItemLeaves(category, subCategory, items[..|items| - 1]) + [Leaf(category, subCategory, items[|items| - 1])]
  }

  /** Number of items over all sub-categories of one major category. */
  function SubCount(subs: SubCategories): nat
  {
    if subs == [] then 0 else SubCount(subs[..|subs| - 1]) + |subs[|subs| - 1].1|
  }

  /** Number of leaf items in the whole grouping. */
  function TotalItems(nested: Nested): nat
  {
    if nested == [] then 0 else TotalItems(nested[..|nested| - 1]) + SubCount(nested[|nested| - 1].1)
  }

  /** The leaves of one major category, sub-category by sub-category. */
  function MajorLeaves(category: string, subs: SubCategories): (ls: seq<Leaf>)
    ensures |ls| == SubCount(subs)
  {
    if subs == [] then []
    else
      var last := subs[|subs| - 1];
      MajorLeaves(category, subs[..|subs| - 1]) + ItemLeaves(category, last.0, last.1)
  }

  /** The leaves of the whole grouping, major category by major category. */
  function Leaves(nested: Nested): (ls: seq<Leaf>)
    ensures |ls| == TotalItems(nested)
  {
    if nested == [] then []
    else
      var last := nested[|nested| - 1];
      Leaves(nested[..|nested| - 1]) + MajorLeaves(last.0, last.1)
  }

  /** Where the item `nested[i].1[j].1[m]` lands in the flat list. */
  function Position(nested: Nested, i: nat, j: nat, m: nat): nat
    requires i < |nested| && j < |nested[i].1|
  {
    TotalItems(nested[..i]) + SubCount(nested[i].1[..j]) + m
  }

  /** `i`, `j`, `m` address an existing item. */
  predicate ValidIndex(nested: Nested, i: int, j: int, m: int)
  {
    0 <= i < |nested| && 0 <= j < |nested[i].1| && 0 <= m < |nested[i].1[j].1|
  }

  // ---------------------------------------------------------------------
  // Building cards
  // ---------------------------------------------------------------------

  /** The card dictionary literal: `item['用語']` is looked up first, then `item['説明']`. */
  function CardFromLeaf(leaf: Leaf): (r: Result<Card>)
    ensures r.Ok? <==> TermKey in leaf.item && DefinitionKey in leaf.item
    ensures r.Ok? ==> r.value == Card(leaf.item[TermKey], leaf.item[DefinitionKey], leaf.category, leaf.subCategory)
    ensures r.Err? ==> r.error == MissingKey(if TermKey !in leaf.item then TermKey else DefinitionKey)
  {
    if TermKey !in leaf.item then Err(MissingKey(TermKey))
    else if DefinitionKey !in leaf.item then Err(MissingKey(DefinitionKey))
    else Ok(Card(leaf.item[TermKey], leaf.item[DefinitionKey], leaf.category, leaf.subCategory))
  }

  /** Cards for the leaves in order; the first leaf whose lookup fails decides the error. */
  function Convert(leaves: seq<Leaf>): (r: Result<seq<Card>>)
    ensures r.Ok? ==> |r.value| == |leaves|
    ensures r.Err? ==> r.error == MissingKey(TermKey) || r.error == MissingKey(DefinitionKey)
  {
    if leaves == [] then Ok([])
    else
      var done := Convert(leaves[..|leaves| - 1]);
      var card := CardFromLeaf(leaves[|leaves| - 1]);
      if done.Err? then Err(done.error)
      else if card.Err? then Err(card.error)
      else Ok(done.value + [card.value])
  }

  /**
    Converting succeeds exactly when every leaf has both keys; then there is
    one card per leaf, in leaf order. Otherwise the error is that of the
    first leaf whose lookup fails.
   */
  lemma {:induction false} ConvertSpec(leaves: seq<Leaf>)
    ensures Convert(leaves).Ok? <==> forall k :: 0 <= k < |leaves| ==> CardFromLeaf(leaves[k]).Ok?
    ensures Convert(leaves).Ok? ==> |Convert(leaves).value| == |leaves|
    ensures Convert(leaves).Ok? ==> forall k :: 0 <= k < |leaves| ==> Convert(leaves).value[k] == CardFromLeaf(leaves[k]).value
    ensures Convert(leaves).Err? ==>
      exists k :: 0 <= k < |leaves| && CardFromLeaf(leaves[k]) == Err(Convert(leaves).error)
                  && forall q :: 0 <= q < k ==> CardFromLeaf(leaves[q]).Ok?
    decreases |leaves|
  {
    if leaves != [] {
      var init := leaves[..|leaves| - 1];
      assert forall k :: 0 <= k < |init| ==> init[k] == leaves[k];
      ConvertSpec(init);
    }
  }

  /** The outcome of the three nested loops of the loader over a parsed file. */
  function Flatten(nested: Nested): (r: Result<seq<Card>>)
    ensures r.Ok? ==> |r.value| == TotalItems(nested)
    ensures r.Err? ==> r.error == MissingKey(TermKey) || r.error == MissingKey(DefinitionKey)
  {
    Convert(Leaves(nested))
  }

  /** Every item carries both a term and a definition. */
  ghost predicate WellFormed(nested: Nested)
  {
    forall i, j, m :: ValidIndex(nested, i, j, m) ==>
      TermKey in nested[i].1[j].1[m] && DefinitionKey in nested[i].1[j].1[m]
  }

  // ---------------------------------------------------------------------
  // Splitting the traversal
  // ---------------------------------------------------------------------

  lemma {:induction false} MajorLeavesAppend(category: string, a: SubCategories, b: SubCategories)
    ensures MajorLeaves(category, a + b) == MajorLeaves(category, a) + MajorLeaves(category, b)
    decreases |b|
  {
    if b != [] {
      var ab := a + b;
      assert ab[..|ab| - 1] == a + b[..|b| - 1];
      assert ab[|ab| - 1] == b[|b| - 1];
      MajorLeavesAppend(category, a, b[..|b| - 1]);
    } else {
      assert a + b == a;
    }
  }

  lemma {:induction false} LeavesAppend(a: Nested, b: Nested)
    ensures Leaves(a + b) == Leaves(a) + Leaves(b)
    decreases |b|
  {
    if b != [] {
      var ab := a + b;
      assert ab[..|ab| - 1] == a + b[..|b| - 1];
      assert ab[|ab| - 1] == b[|b| - 1];
      LeavesAppend(a, b[..|b| - 1]);
    } else {
      assert a + b == a;
    }
  }

  /** The leaves of a grouping with one major category singled out. */
  lemma LeavesMiddle(before: Nested, group: (string, SubCategories), after: Nested)
    ensures Leaves(before + [group] + after) == Leaves(before) + MajorLeaves(group.0, group.1) + Leaves(after)
  {
    LeavesAppend(before + [group], after);
    LeavesAppend(before, [group]);
    assert [group][..0] == [];
  }

  /** The leaves of a major category with one sub-category singled out. */
  lemma MajorLeavesMiddle(category: string, before: SubCategories, sub: (string, seq<Item>), after: SubCategories)
    ensures MajorLeaves(category, before + [sub] + after)
         == MajorLeaves(category, before) + ItemLeaves(category, sub.0, sub.1) + MajorLeaves(category, after)
  {
    MajorLeavesAppend(category, before + [sub], after);
    MajorLeavesAppend(category, before, [sub]);
    assert [sub][..0] == [];
  }

  /** The leaves of the whole grouping: those before major category `i`, its own, those after. */
  lemma LeavesAround(nested: Nested, i: nat)
    requires i < |nested|
    ensures Leaves(nested) == Leaves(nested[..i]) + MajorLeaves(nested[i].0, nested[i].1) + Leaves(nested[i + 1..])
  {
    SplitAt(nested, i);
    LeavesMiddle(nested[..i], nested[i], nested[i + 1..]);
  }

  lemma MajorLeavesAround(category: string, subs: SubCategories, j: nat)
    requires j < |subs|
    ensures MajorLeaves(category, subs) ==
      MajorLeaves(category, subs[..j]) + ItemLeaves(category, subs[j].0, subs[j].1) + MajorLeaves(category, subs[j + 1..])
  {
    SplitAt(subs, j);
    MajorLeavesMiddle(category, subs[..j], subs[j], subs[j + 1..]);
  }

  /** A sequence is its prefix, one element and its suffix. */
  lemma SplitAt<T>(s: seq<T>, i: nat)
    requires i < |s|
    ensures s == s[..i] + [s[i]] + s[i + 1..]
  {
  }

  /** Indexing past a prefix of a three-part sequence lands in the middle part. */
  lemma IndexMiddle<T>(a: seq<T>, b: seq<T>, c: seq<T>, x: nat)
    requires x < |b|
    ensures |a| + x < |a + b + c| && (a + b + c)[|a| + x] == b[x]
  {
  }

  /** One more leaf: its card is appended, or its lookup error becomes the outcome. */
  lemma ConvertSnoc(leaves: seq<Leaf>, leaf: Leaf)
    requires Convert(leaves).Ok?
    ensures Convert(leaves + [leaf]) ==
      if CardFromLeaf(leaf).Err? then Err(CardFromLeaf(leaf).error)
      else Ok(Convert(leaves).value + [CardFromLeaf(leaf).value])
  {
    assert (leaves + [leaf])[..|leaves|] == leaves;
  }

  /** Once a prefix of the leaves fails, further leaves do not change the outcome. */
  lemma {:induction false} ConvertErrSticks(a: seq<Leaf>, b: seq<Leaf>)
    requires Convert(a).Err?
    ensures Convert(a + b) == Convert(a)
    decreases |b|
  {
    if b != [] {
      var ab := a + b;
      assert ab[..|ab| - 1] == a + b[..|b| - 1];
      ConvertErrSticks(a, b[..|b| - 1]);
    } else {
      assert a + b == a;
    }
  }

  /** Appending leaves that all convert appends their cards, in order. */
  lemma {:induction false} ConvertAppendOk(a: seq<Leaf>, b: seq<Leaf>, front: seq<Card>, back: seq<Card>)
    requires Convert(a) == Ok(front)
    requires |back| == |b|
    requires forall q :: 0 <= q < |b| ==> CardFromLeaf(b[q]) == Ok(back[q])
    ensures Convert(a + b) == Ok(front + back)
    decreases |b|
  {
    if b == [] {
      assert a + b == a && front + back == front;
    } else {
      var n := |b| - 1;
      ConvertAppendOk(a, b[..n], front, back[..n]);
      ConvertSnoc(a + b[..n], b[n]);
      assert a + b[..n] + [b[n]] == a + b;
      assert front + back[..n] + [back[n]] == front + back;
    }
  }

  /** Appending leaves stops with the error of the first one that does not convert. */
  lemma ConvertAppendErr(a: seq<Leaf>, b: seq<Leaf>, k: nat)
    requires Convert(a).Ok?
    requires k < |b|
    requires forall q :: 0 <= q < k ==> CardFromLeaf(b[q]).Ok?
    requires CardFromLeaf(b[k]).Err?
    ensures Convert(a + b) == Err(CardFromLeaf(b[k]).error)
  {
    ConvertSpec(a);
    var ab := a + b;
    assert forall q :: 0 <= q < |a| ==> ab[q] == a[q];
    assert forall q :: 0 <= q < k ==> ab[|a| + q] == b[q];
    assert ab[|a| + k] == b[k];
    FirstFailureDecides(ab, |a| + k);
  }

  /** The first leaf whose lookup fails decides the outcome. */
  lemma FirstFailureDecides(leaves: seq<Leaf>, p: nat)
    requires p < |leaves|
    requires forall q :: 0 <= q < p ==> CardFromLeaf(leaves[q]).Ok?
    requires CardFromLeaf(leaves[p]).Err?
    ensures Convert(leaves) == Err(CardFromLeaf(leaves[p]).error)
  {
    ConvertSpec(leaves);
    var first :| 0 <= first < |leaves| && CardFromLeaf(leaves[first]) == Err(Convert(leaves).error)
                 && forall q :: 0 <= q < first ==> CardFromLeaf(leaves[q]).Ok?;
    assert first == p;
  }

  // ---------------------------------------------------------------------
  // Counts and positions
  // ---------------------------------------------------------------------

  /** Items of earlier sub-categories never outnumber those of a longer prefix. */
  lemma {:induction false} SubCountPrefix(subs: SubCategories, a: nat, b: nat)
    requires a <= b <= |subs|
    ensures SubCount(subs[..a]) <= SubCount(subs[..b])
    ensures a < b ==> SubCount(subs[..a]) + |subs[a].1| <= SubCount(subs[..b])
    decreases b - a
  {
    if a < b {
      assert subs[..a + 1][..a] == subs[..a];
      SubCountPrefix(subs, a + 1, b);
    }
  }

  lemma {:induction false} TotalItemsPrefix(nested: Nested, a: nat, b: nat)
    requires a <= b <= |nested|
    ensures TotalItems(nested[..a]) <= TotalItems(nested[..b])
    ensures a < b ==> TotalItems(nested[..a]) + SubCount(nested[a].1) <= TotalItems(nested[..b])
    decreases b - a
  {
    if a < b {
      assert nested[..a + 1][..a] == nested[..a];
      TotalItemsPrefix(nested, a + 1, b);
    }
  }

  /** The item at (i, j, m) sits before every later item of the grouping. */
  lemma PositionBounds(nested: Nested, i: nat, j: nat, m: nat)
    requires ValidIndex(nested, i, j, m)
    ensures TotalItems(nested[..i]) <= Position(nested, i, j, m) < TotalItems(nested[..i + 1])
    ensures Position(nested, i, j, m) < SubCount(nested[i].1[..j + 1]) + TotalItems(nested[..i])
  {
    var subs := nested[i].1;
    SubCountPrefix(subs, j, |subs|);
    assert subs[..|subs|] == subs;
    assert nested[..i + 1][..i] == nested[..i];
    assert subs[..j + 1][..j] == subs[..j];
  }

  /** Traversal order: the position grows with (major, sub, item) in lexicographic order. */
  lemma PositionOrder(nested: Nested, i: nat, j: nat, m: nat, i': nat, j': nat, m': nat)
    requires ValidIndex(nested, i, j, m) && ValidIndex(nested, i', j', m')
    requires i < i' || (i == i' && j < j') || (i == i' && j == j' && m < m')
    ensures Position(nested, i, j, m) < Position(nested, i', j', m')
  {
    PositionBounds(nested, i, j, m);
    PositionBounds(nested, i', j', m');
    if i < i' {
      TotalItemsPrefix(nested, i + 1, i');
    } else if j < j' {
      SubCountPrefix(nested[i].1, j + 1, j');
    }
  }

  /** Within one major category, the leaf after the items of the first `j` sub-categories. */
  lemma MajorLeafAt(category: string, subs: SubCategories, j: nat, m: nat)
    requires j < |subs| && m < |subs[j].1|
    ensures SubCount(subs[..j]) + m < |MajorLeaves(category, subs)|
    ensures MajorLeaves(category, subs)[SubCount(subs[..j]) + m] == Leaf(category, subs[j].0, subs[j].1[m])
  {
    MajorLeavesAround(category, subs, j);
    var within := MajorLeaves(category, subs[..j]);
    var own := ItemLeaves(category, subs[j].0, subs[j].1);
    var rest := MajorLeaves(category, subs[j + 1..]);
    IndexMiddle(within, own, rest, m);
  }

  /** The leaf at the position of (i, j, m) is that item, tagged with its enclosing keys. */
  lemma LeafAt(nested: Nested, i: nat, j: nat, m: nat)
    requires ValidIndex(nested, i, j, m)
    ensures Position(nested, i, j, m) < |Leaves(nested)|
    ensures Leaves(nested)[Position(nested, i, j, m)] == Leaf(nested[i].0, nested[i].1[j].0, nested[i].1[j].1[m])
  {
    LeavesAround(nested, i);
    MajorLeafAt(nested[i].0, nested[i].1, j, m);
    var before := Leaves(nested[..i]);
    var major := MajorLeaves(nested[i].0, nested[i].1);
    var after := Leaves(nested[i + 1..]);
    IndexMiddle(before, major, after, SubCount(nested[i].1[..j]) + m);
  }

  /** Within one major category, every leaf comes from some (sub-category, item). */
  lemma {:induction false} MajorLeafOrigin(category: string, subs: SubCategories, p: nat) returns (j: nat, m: nat)
    requires p < |MajorLeaves(category, subs)|
    ensures j < |subs| && m < |subs[j].1|
    ensures p == SubCount(subs[..j]) + m
    ensures MajorLeaves(category, subs)[p] == Leaf(category, subs[j].0, subs[j].1[m])
    decreases |subs|
  {
    var n := |subs| - 1;
    var init := subs[..n];
    assert subs[..n + 1] == subs;
    if p < SubCount(init) {
      j, m := MajorLeafOrigin(category, init, p);
      assert init[..j] == subs[..j];
    } else {
      j, m := n, p - SubCount(init);
    }
  }

  /** Every leaf comes from some (major category, sub-category, item): nothing is invented. */
  lemma {:induction false} LeafOrigin(nested: Nested, p: nat) returns (i: nat, j: nat, m: nat)
    requires p < |Leaves(nested)|
    ensures ValidIndex(nested, i, j, m)
    ensures Position(nested, i, j, m) == p
    ensures Leaves(nested)[p] == Leaf(nested[i].0, nested[i].1[j].0, nested[i].1[j].1[m])
    decreases |nested|
  {
    var n := |nested| - 1;
    var init := nested[..n];
    if p < TotalItems(init) {
      i, j, m := LeafOrigin(init, p);
      assert init[..i] == nested[..i];
    } else {
      i := n;
      j, m := MajorLeafOrigin(nested[n].0, nested[n].1, p - TotalItems(init));
    }
  }

  // ---------------------------------------------------------------------
  // Properties of flattening
  // ---------------------------------------------------------------------

  /** Loading succeeds exactly when every item has both a term and a definition. */
  lemma FlattenOkIff(nested: Nested)
    ensures Flatten(nested).Ok? <==> WellFormed(nested)
  {
    ConvertSpec(Leaves(nested));
    var leaves := Leaves(nested);
    if Flatten(nested).Ok? {
      forall i, j, m | ValidIndex(nested, i, j, m)
        ensures TermKey in nested[i].1[j].1[m] && DefinitionKey in nested[i].1[j].1[m]
      {
        LeafAt(nested, i, j, m);
        assert CardFromLeaf(leaves[Position(nested, i, j, m)]).Ok?;
      }
    }
    if WellFormed(nested) {
      forall p | 0 <= p < |leaves| ensures CardFromLeaf(leaves[p]).Ok? {
        var i, j, m := LeafOrigin(nested, p);
      }
    }
  }

  /** On success the card of item (i, j, m) is at its traversal position and carries the item's values and its group keys. */
  lemma FlattenCardAt(nested: Nested, i: nat, j: nat, m: nat)
    requires Flatten(nested).Ok?
    requires ValidIndex(nested, i, j, m)
    ensures Position(nested, i, j, m) < |Flatten(nested).value|
    ensures TermKey in nested[i].1[j].1[m] && DefinitionKey in nested[i].1[j].1[m]
    ensures Flatten(nested).value[Position(nested, i, j, m)] ==
      Card(nested[i].1[j].1[m][TermKey], nested[i].1[j].1[m][DefinitionKey], nested[i].0, nested[i].1[j].0)
  {
    ConvertSpec(Leaves(nested));
    LeafAt(nested, i, j, m);
    var p := Position(nested, i, j, m);
    assert CardFromLeaf(Leaves(nested)[p]).Ok?;
  }

  /** On success every card comes from one item, whose values and enclosing keys it carries. */
  lemma FlattenCardOrigin(nested: Nested, p: nat) returns (i: nat, j: nat, m: nat)
    requires Flatten(nested).Ok?
    requires p < |Flatten(nested).value|
    ensures ValidIndex(nested, i, j, m) && Position(nested, i, j, m) == p
    ensures TermKey in nested[i].1[j].1[m] && DefinitionKey in nested[i].1[j].1[m]
    ensures Flatten(nested).value[p] ==
      Card(nested[i].1[j].1[m][TermKey], nested[i].1[j].1[m][DefinitionKey], nested[i].0, nested[i].1[j].0)
  {
    ConvertSpec(Leaves(nested));
    i, j, m := LeafOrigin(nested, p);
    assert CardFromLeaf(Leaves(nested)[p]).Ok?;
  }

  /** A failed load names the missing key of the first faulty item in traversal order. */
  lemma FlattenErrOrigin(nested: Nested) returns (i: nat, j: nat, m: nat)
    requires Flatten(nested).Err?
    ensures ValidIndex(nested, i, j, m)
    ensures CardFromLeaf(Leaf(nested[i].0, nested[i].1[j].0, nested[i].1[j].1[m])) == Err(Flatten(nested).error)
    ensures forall i', j', m' :: ValidIndex(nested, i', j', m') && Position(nested, i', j', m') < Position(nested, i, j, m) ==>
      TermKey in nested[i'].1[j'].1[m'] && DefinitionKey in nested[i'].1[j'].1[m']
  {
    ConvertSpec(Leaves(nested));
    var leaves := Leaves(nested);
    var k :| 0 <= k < |leaves| && CardFromLeaf(leaves[k]) == Err(Flatten(nested).error)
             && forall q :: 0 <= q < k ==> CardFromLeaf(leaves[q]).Ok?;
    i, j, m := LeafOrigin(nested, k);
    forall i', j', m' | ValidIndex(nested, i', j', m') && Position(nested, i', j', m') < Position(nested, i, j, m)
      ensures TermKey in nested[i'].1[j'].1[m'] && DefinitionKey in nested[i'].1[j'].1[m']
    {
      LeafAt(nested, i', j', m');
      assert CardFromLeaf(leaves[Position(nested, i', j', m')]).Ok?;
    }
  }

  /** A major category with no sub-categories contributes nothing and disturbs nothing. */
  lemma EmptyMajorAddsNothing(before: Nested, category: string, after: Nested)
    ensures Flatten(before + [(category, [])] + after) == Flatten(before + after)
  {
    var empty: SubCategories := [];
    calc {
      Leaves(before + [(category, empty)] + after);
      { LeavesMiddle(before, (category, empty), after); }
      Leaves(before) + MajorLeaves(category, empty) + Leaves(after);
      { assert MajorLeaves(category, empty) == []; }
      Leaves(before) + Leaves(after);
      { LeavesAppend(before, after); }
      Leaves(before + after);
    }
  }

  /** Within one major category, a sub-category with no items contributes no leaves. */
  lemma EmptySubCategoryLeaves(category: string, subsBefore: SubCategories, subCategory: string, subsAfter: SubCategories)
    ensures MajorLeaves(category, subsBefore + [(subCategory, [])] + subsAfter)
         == MajorLeaves(category, subsBefore + subsAfter)
  {
    var noItems: seq<Item> := [];
    MajorLeavesMiddle(category, subsBefore, (subCategory, noItems), subsAfter);
    assert ItemLeaves(category, subCategory, noItems) == [];
    MajorLeavesAppend(category, subsBefore, subsAfter);
  }

  /** A sub-category with no items contributes nothing and disturbs nothing. */
  lemma EmptySubAddsNothing(before: Nested, category: string, subsBefore: SubCategories,
                            subCategory: string, subsAfter: SubCategories, after: Nested)
    ensures Flatten(before + [(category, subsBefore + [(subCategory, [])] + subsAfter)] + after)
         == Flatten(before + [(category, subsBefore + subsAfter)] + after)
  {
    var noItems: seq<Item> := [];
    var withEmpty := subsBefore + [(subCategory, noItems)] + subsAfter;
    LeavesMiddle(before, (category, withEmpty), after);
    EmptySubCategoryLeaves(category, subsBefore, subCategory, subsAfter);
    LeavesMiddle(before, (category, subsBefore + subsAfter), after);
  }

  /** The leaves of a grouping with one major category holding one sub-category. */
  lemma SingleGroupLeaves(category: string, subCategory: string, items: seq<Item>)
    ensures Leaves([(category, [(subCategory, items)])]) == ItemLeaves(category, subCategory, items)
  {
    var subs: SubCategories := [(subCategory, items)];
    var nested: Nested := [(category, subs)];
    assert [] + subs + [] == subs;
    MajorLeavesMiddle(category, [], (subCategory, items), []);
    assert [] + nested + [] == nested;
    LeavesMiddle([], (category, subs), []);
  }

  /** One major category, one sub-category, one item: one card carrying all four values. */
  lemma SingleItemExample()
    ensures Flatten([("1 基礎理論", [("離散数学", [map[TermKey := "集合", DefinitionKey := "ものの集まり"]])])])
         == Ok([Card("集合", "ものの集まり", "1 基礎理論", "離散数学")])
  {
    var item: Item := map[TermKey := "集合", DefinitionKey := "ものの集まり"];
    var leaf := Leaf("1 基礎理論", "離散数学", item);
    SingleGroupLeaves("1 基礎理論", "離散数学", [item]);
    assert ItemLeaves("1 基礎理論", "離散数学", [item]) == [leaf];
    ConvertSnoc([], leaf);
    assert [] + [leaf] == [leaf];
    var none: seq<Card> := [];
    assert none + [Card("集合", "ものの集まり", "1 基礎理論", "離散数学")] == [Card("集合", "ものの集まり", "1 基礎理論", "離散数学")];
  }

  /** An item without a definition aborts the load, naming the definition key. */
  lemma MissingDefinitionExample()
    ensures Flatten([("1 基礎理論", [("離散数学", [map[TermKey := "集合"]])])]) == Err(MissingKey(DefinitionKey))
  {
    var item: Item := map[TermKey := "集合"];
    var leaf := Leaf("1 基礎理論", "離散数学", item);
    SingleGroupLeaves("1 基礎理論", "離散数学", [item]);
    assert ItemLeaves("1 基礎理論", "離散数学", [item]) == [leaf];
    ConvertSnoc([], leaf);
    assert [] + [leaf] == [leaf];
  }
}
