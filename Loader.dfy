/**
  The process-wide card list of api/index.py and the one routine that
  writes it. `Loader.data` is the module global `FLASHCARDS_DATA`; `Load`
  is `load_flashcards_data`, with the existence test of the resolved file
  path and the parsed JSON passed in; `TotalCards` and `Cards` are what
  the two routes read.
 */
module FlashcardApp {
  import opened CardFlattening

  const NotFoundTerm: string := "データが見つかりません"
  const PathLabel: string := "ファイルパス: "
  const ErrorCategory: string := "エラー"

  /** The single card served when the data file is missing; it embeds the path that was tried. */
  function SentinelCard(path: string): (c: Card)
    ensures c.term == NotFoundTerm
    ensures |c.definition| == |PathLabel| + |path|
    ensures c.definition[..|PathLabel|] == PathLabel && c.definition[|PathLabel|..] == path
    ensures c.category == ErrorCategory && c.subCategory == ErrorCategory
  {
    Card(NotFoundTerm, PathLabel + path, ErrorCategory, ErrorCategory)
  }

  /** How a load ended: cards in place (possibly the sentinel), or the lookup that raised. */
  datatype Outcome = Loaded | Failed(error: LoadError)

  class Loader {
    /** The card list every request reads. */
    var data: seq<Card>

    /** The module starts with an empty list. */
    constructor ()
      ensures data == []
    {
      data := [];
    }

    /**
      Replace the card list with the flattened file, or with the sentinel
      card when the file does not exist. A missing key aborts the load and
      leaves the list as it was.
     */
    method Load(fileExists: bool, path: string, nested: Nested) returns (outcome: Outcome)
      modifies this
      ensures !fileExists ==> outcome == Loaded && data == [SentinelCard(path)]
      ensures fileExists && Flatten(nested).Ok? ==> outcome == Loaded && data == Flatten(nested).value
      ensures fileExists && Flatten(nested).Err? ==> outcome == Failed(Flatten(nested).error) && data == old(data)
    {
      if !fileExists {
        data := [SentinelCard(path)];
        return Loaded;
      }
      var flat: seq<Card> := [];
      for i := 0 to |nested|
        invariant Convert(Leaves(nested[..i])) == Ok(flat)
        invariant data == old(data)
      {
        var r := AppendMajorCategory(Leaves(nested[..i]), flat, nested[i].0, nested[i].1);
        if r.Err? {
          MajorCategoryFails(nested, i);
          return Failed(r.error);
        }
        flat := r.value;
        LeavesStep(nested, i);
      }
      assert nested[..|nested|] == nested;
      data := flat;
      outcome := Loaded;
    }

    /** The top page: the number of cards it reports. */
    method TotalCards() returns (n: nat)
      ensures n == |data|
    {
      n := |data|;
    }

    /** The cards endpoint: the list as it is, same length, order and contents. */
    method Cards() returns (cards: seq<Card>)
      ensures cards == data
    {
      cards := data;
    }
  }

  /**
    The inner loop: append the card of each item of one sub-category, in
    item order, to the cards built so far; the first item without a term or
    a definition aborts with that lookup's error.
   */
  method AppendItems(ghost processed: seq<Leaf>, flat: seq<Card>, category: string, subCategory: string, items: seq<Item>)
    returns (r: Result<seq<Card>>)
    requires Convert(processed) == Ok(flat)
    ensures r == Convert(processed + ItemLeaves(category, subCategory, items))
  {
    ghost var leaves := ItemLeaves(category, subCategory, items);
    var cards := flat;
    for k := 0 to |items|
      invariant |cards| == |flat| + k && cards[..|flat|] == flat
      invariant forall q :: 0 <= q < k ==> CardFromLeaf(leaves[q]) == Ok(cards[|flat| + q])
    {
      var item := items[k];
      if TermKey !in item || DefinitionKey !in item {
        ConvertAppendErr(processed, leaves, k);
        return Err(MissingKey(if TermKey !in item then TermKey else DefinitionKey));
      }
      cards := cards + [Card(item[TermKey], item[DefinitionKey], category, subCategory)];
    }
    ConvertAppendOk(processed, leaves, flat, cards[|flat|..]);
    assert flat + cards[|flat|..] == cards;
    r := Ok(cards);
  }

  /**
    The middle loop: append the cards of each sub-category of one major
    category, in sub-category order.
   */
  method AppendMajorCategory(ghost processed: seq<Leaf>, flat: seq<Card>, category: string, subs: SubCategories)
    returns (r: Result<seq<Card>>)
    requires Convert(processed) == Ok(flat)
    ensures r == Convert(processed + MajorLeaves(category, subs))
  {
    var cards := flat;
    ghost var done := processed;
    assert subs[..0] == [];
    for j := 0 to |subs|
      invariant done == processed + MajorLeaves(category, subs[..j])
      invariant Convert(done) == Ok(cards)
    {
      var step := AppendItems(done, cards, category, subs[j].0, subs[j].1);
      if step.Err? {
        SubCategoryFails(processed, category, subs, j);
        return step;
      }
      cards := step.value;
      done := done + ItemLeaves(category, subs[j].0, subs[j].1);
      SubCategoryStep(processed, category, subs, j);
    }
    assert subs[..|subs|] == subs;
    r := Ok(cards);
  }

  /** Module start-up: the empty list, then one load. */
  method Startup(fileExists: bool, path: string, nested: Nested) returns (loader: Loader, outcome: Outcome)
    ensures fresh(loader)
    ensures !fileExists ==> outcome == Loaded && loader.data == [SentinelCard(path)]
    ensures fileExists && Flatten(nested).Ok? ==> outcome == Loaded && loader.data == Flatten(nested).value
    ensures fileExists && Flatten(nested).Err? ==> outcome == Failed(Flatten(nested).error) && loader.data == []
  {
    loader := new Loader();
    outcome := loader.Load(fileExists, path, nested);
  }

  /** Two start-ups over the same file serve the same cards in the same order. */
  method StartupIsDeterministic(fileExists: bool, path: string, nested: Nested)
    returns (first: seq<Card>, second: seq<Card>)
    ensures first == second
  {
    var a, _ := Startup(fileExists, path, nested);
    var b, _ := Startup(fileExists, path, nested);
    first := a.Cards();
    second := b.Cards();
  }

  // ---------------------------------------------------------------------
  // Loop steps
  // ---------------------------------------------------------------------

  lemma MajorLeavesStep(category: string, subs: SubCategories, j: nat)
    requires j < |subs|
    ensures MajorLeaves(category, subs[..j + 1])
         == MajorLeaves(category, subs[..j]) + ItemLeaves(category, subs[j].0, subs[j].1)
  {
    assert subs[..j + 1][..j] == subs[..j];
  }

  lemma LeavesStep(nested: Nested, i: nat)
    requires i < |nested|
    ensures Leaves(nested[..i + 1]) == Leaves(nested[..i]) + MajorLeaves(nested[i].0, nested[i].1)
  {
    assert nested[..i + 1][..i] == nested[..i];
  }

  lemma SubCategoryStep(processed: seq<Leaf>, category: string, subs: SubCategories, j: nat)
    requires j < |subs|
    ensures processed + MajorLeaves(category, subs[..j + 1])
         == processed + MajorLeaves(category, subs[..j]) + ItemLeaves(category, subs[j].0, subs[j].1)
  {
    MajorLeavesStep(category, subs, j);
  }

  /** A failing sub-category decides the outcome of its whole major category. */
  lemma SubCategoryFails(processed: seq<Leaf>, category: string, subs: SubCategories, j: nat)
    requires j < |subs|
    requires Convert(processed + MajorLeaves(category, subs[..j]) + ItemLeaves(category, subs[j].0, subs[j].1)).Err?
    ensures Convert(processed + MajorLeaves(category, subs))
         == Convert(processed + MajorLeaves(category, subs[..j]) + ItemLeaves(category, subs[j].0, subs[j].1))
  {
    var failed := processed + MajorLeaves(category, subs[..j]) + ItemLeaves(category, subs[j].0, subs[j].1);
    var later := MajorLeaves(category, subs[j + 1..]);
    MajorLeavesAround(category, subs, j);
    ConvertErrSticks(failed, later);
    Regroup(processed, MajorLeaves(category, subs[..j]), ItemLeaves(category, subs[j].0, subs[j].1), later);
  }

  lemma Regroup<T>(a: seq<T>, b: seq<T>, c: seq<T>, d: seq<T>)
    ensures a + (b + c + d) == a + b + c + d
  {
  }

  lemma MajorCategoryFails(nested: Nested, i: nat)
    requires i < |nested|
    requires Convert(Leaves(nested[..i]) + MajorLeaves(nested[i].0, nested[i].1)).Err?
    ensures Flatten(nested) == Convert(Leaves(nested[..i]) + MajorLeaves(nested[i].0, nested[i].1))
  {
    var failed := Leaves(nested[..i]) + MajorLeaves(nested[i].0, nested[i].1);
    LeavesAround(nested, i);
    ConvertErrSticks(failed, Leaves(nested[i + 1..]));
  }
}
