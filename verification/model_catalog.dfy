/** The candidate builder of the "@"-mention model picker: the pin toggle and the grouped,
    filtered, sorted list of models the picker offers (`modelMenuItems` and `flatModelItems`
    in SelectAtActionModel.tsx). */
module ModelCatalog {

  import opened Seqs
  import Sorting

  datatype Model = Model(id: string, name: string, group: string, provider: string)

  /** A provider whose `models` is missing is modelled with an empty sequence. */
  datatype Provider = Provider(id: string, name: string, models: seq<Model>)

  /** The helpers the picker calls but does not define: `getModelUniqId`, `isEmbeddingModel`,
      `isRerankModel`, and `toLowerCase` as the case folding applied to both sides of a search. */
  datatype Oracle = Oracle(
    uniqId: Model -> string,
    isEmbedding: Model -> bool,
    isRerank: Model -> bool,
    lower: string -> string)

  datatype GroupKey = PinnedGroup | ProviderGroup(providerId: string)

  /** A menu group: its key and its rows, in display order. */
  datatype Group = Group(key: GroupKey, rows: seq<Model>)

  // ---------------------------------------------------------------- pin toggle

  /** `togglePin`: drop every occurrence of a pinned id, or append an unpinned one. */
  function TogglePin(pins: seq<string>, id: string): (r: seq<string>)
    ensures id in pins ==> id !in r && IsSubsequence(r, pins)
    ensures id !in pins ==> r == pins + [id]
    ensures forall x :: x != id ==> (x in r <==> x in pins)
    ensures id in pins ==> forall x :: x != id ==> multiset(r)[x] == multiset(pins)[x]
  {
    if id in pins then
      var r := Filter(NotEqual(id), pins);
      FilterIsSubsequence(NotEqual(id), pins);
      forall x | x != id
        ensures multiset(r)[x] == multiset(pins)[x]
      {
        FilterCount(NotEqual(id), pins, x);
      }
      assert forall x :: x != id && x in pins ==> x in r by {
        forall x | x != id && x in pins
          ensures x in r
        {
          var i :| 0 <= i < |pins| && pins[i] == x;
        }
      }
      r
    else
      pins + [id]
  }

  function NotEqual(id: string): string -> bool
  {
    x => x != id
  }

  /** Pinning an unpinned id and unpinning it again restores the pin list exactly. */
  lemma TogglePinTwiceRestores(pins: seq<string>, id: string)
    requires id !in pins
    ensures TogglePin(TogglePin(pins, id), id) == pins
  {
    assert id in pins + [id];
    FilterConcat(NotEqual(id), pins, [id]);
    FilterAllPass(NotEqual(id), pins);
    assert Filter(NotEqual(id), [id]) == [];
  }

  // ---------------------------------------------------------------- filters

  /** Some already-mentioned model has the same uniq id as `m`. */
  predicate IsMentioned(o: Oracle, mentioned: seq<Model>, m: Model)
  {
    exists k :: 0 <= k < |mentioned| && o.uniqId(mentioned[k]) == o.uniqId(m)
  }

  /** Empty search text keeps everything; otherwise the lowered name or id must contain
      the lowered text. */
  predicate MatchesSearch(o: Oracle, search: string, m: Model)
  {
    search == "" || Includes(o.lower(m.name), o.lower(search)) || Includes(o.lower(m.id), o.lower(search))
  }

  /** The chain of filters applied to a provider's sorted models, in source order. */
  predicate KeepRegular(o: Oracle, pins: seq<string>, mentioned: seq<Model>, search: string, m: Model)
  {
    && !o.isEmbedding(m)
    && !o.isRerank(m)
    && o.uniqId(m) !in pins
    && !IsMentioned(o, mentioned, m)
    && MatchesSearch(o, search, m)
  }

  function KeepRegularFn(o: Oracle, pins: seq<string>, mentioned: seq<Model>, search: string): Model -> bool
  {
    m => KeepRegular(o, pins, mentioned, search, m)
  }

  /** The filters of the pinned group: pinned and not already mentioned, nothing else. */
  predicate KeepPinned(o: Oracle, pins: seq<string>, mentioned: seq<Model>, m: Model)
  {
    o.uniqId(m) in pins && !IsMentioned(o, mentioned, m)
  }

  function KeepPinnedFn(o: Oracle, pins: seq<string>, mentioned: seq<Model>): Model -> bool
  {
    m => KeepPinned(o, pins, mentioned, m)
  }

  predicate HasModels(p: Provider)
  {
    |p.models| > 0
  }

  function SortKeyOf(m: Model): Sorting.SortKey
  {
    (m.group, m.name)
  }

  // ---------------------------------------------------------------- groups

  /** A provider's regular rows: its models sorted by (group, name), then filtered. */
  function RegularRows(o: Oracle, p: Provider, pins: seq<string>, mentioned: seq<Model>, search: string): (r: seq<Model>)
    ensures Sorting.SortedBy(r, SortKeyOf)
    ensures multiset(r) == multiset(Filter(KeepRegularFn(o, pins, mentioned, search), p.models))
    ensures forall m :: m in r <==> m in p.models && KeepRegular(o, pins, mentioned, search, m)
  {
    var keep := KeepRegularFn(o, pins, mentioned, search);
    var sorted := Sorting.SortBy(p.models, SortKeyOf);
    var r := Filter(keep, sorted);
    FilterIsSubsequence(keep, sorted);
    Sorting.SubsequenceSorted(r, sorted, SortKeyOf);
    FilterPermutation(keep, sorted, p.models);
    assert forall m :: m in r <==> m in p.models && keep(m) by {
      forall m
        ensures m in r <==> m in p.models && keep(m)
      {
        FilterCount(keep, sorted, m);
        assert m in r <==> multiset(r)[m] > 0;
        assert m in sorted <==> multiset(sorted)[m] > 0;
        assert m in p.models <==> multiset(p.models)[m] > 0;
      }
    }
    r
  }

  function ProviderGroupOf(o: Oracle, p: Provider, pins: seq<string>, mentioned: seq<Model>, search: string): Group
  {
    Group(ProviderGroup(p.id), RegularRows(o, p, pins, mentioned, search))
  }

  /** One group per provider that has models, in provider order, before empty ones are dropped. */
  function AllProviderGroups(o: Oracle, ps: seq<Provider>, pins: seq<string>, mentioned: seq<Model>, search: string): (r: seq<Group>)
    ensures |r| == |ps|
    ensures forall i :: 0 <= i < |ps| ==> r[i] == ProviderGroupOf(o, ps[i], pins, mentioned, search)
  {
    if |ps| == 0 then []
    else [ProviderGroupOf(o, ps[0], pins, mentioned, search)] + AllProviderGroups(o, ps[1..], pins, mentioned, search)
  }

  predicate NonEmpty(g: Group)
  {
    |g.rows| > 0
  }

  /** The regular groups: providers with models, mapped to their groups, empty groups dropped. */
  function ProviderGroups(o: Oracle, providers: seq<Provider>, pins: seq<string>, mentioned: seq<Model>, search: string): seq<Group>
  {
    Filter(NonEmpty, AllProviderGroups(o, Filter(HasModels, providers), pins, mentioned, search))
  }

  /** `flatMap` over the providers with models of their pinned rows, in provider/model order. */
  function PinnedRowsOf(o: Oracle, ps: seq<Provider>, pins: seq<string>, mentioned: seq<Model>): seq<Model>
  {
    if |ps| == 0 then []
    else Filter(KeepPinnedFn(o, pins, mentioned), ps[0].models) + PinnedRowsOf(o, ps[1..], pins, mentioned)
  }

  function PinnedRows(o: Oracle, providers: seq<Provider>, pins: seq<string>, mentioned: seq<Model>): seq<Model>
  {
    PinnedRowsOf(o, Filter(HasModels, providers), pins, mentioned)
  }

  /** The leading pinned group, when there are pins and at least one of them survives. */
  function PinnedPart(o: Oracle, providers: seq<Provider>, pins: seq<string>, mentioned: seq<Model>): seq<Group>
  {
    var rows := PinnedRows(o, providers, pins, mentioned);
    if |pins| > 0 && |rows| > 0 then [Group(PinnedGroup, rows)] else []
  }

  /** `modelMenuItems`: the pinned group (if any) unshifted before the provider groups, then
      a last pass dropping empty groups. */
  function MenuGroups(o: Oracle, providers: seq<Provider>, pins: seq<string>, mentioned: seq<Model>, search: string): (r: seq<Group>)
    ensures forall i :: 0 <= i < |r| ==> |r[i].rows| > 0
  {
    Filter(NonEmpty, PinnedPart(o, providers, pins, mentioned) + ProviderGroups(o, providers, pins, mentioned, search))
  }

  // ---------------------------------------------------------------- flattening

  /** `flatModelItems`: the rows of all groups, group after group. */
  function Flatten(groups: seq<Group>): (r: seq<Model>)
    ensures |r| == SizeSum(groups)
  {
    if |groups| == 0 then [] else groups[0].rows + Flatten(groups[1..])
  }

  /** The `reduce` summing the sizes of the groups. */
  function SizeSum(groups: seq<Group>): nat
  {
    if |groups| == 0 then 0 else |groups[0].rows| + SizeSum(groups[1..])
  }

  /** The index the menu gives the first row of group `g`. */
  function StartIndex(groups: seq<Group>, g: nat): nat
    requires g <= |groups|
  {
    SizeSum(groups[..g])
  }

  /** Every model of every provider, in provider order then model order. */
  function Catalog(ps: seq<Provider>): seq<Model>
  {
    if |ps| == 0 then [] else ps[0].models + Catalog(ps[1..])
  }

  // ---------------------------------------------------------------- lemmas

  /** A row's position in the flat list is the size of the earlier groups plus its
      position inside its group, as the menu computes `startIndex + idx`. */
  lemma {:induction false} FlatIndex(groups: seq<Group>, g: nat, j: nat)
    requires g < |groups| && j < |groups[g].rows|
    ensures StartIndex(groups, g) + j < |Flatten(groups)|
    ensures Flatten(groups)[StartIndex(groups, g) + j] == groups[g].rows[j]
  {
    assert groups[..g + 1][..g] == groups[..g];
    if g == 0 {
      assert groups[..0] == [];
    } else {
      FlatIndex(groups[1..], g - 1, j);
      assert groups[1..][..g - 1] == groups[..g][1..];
    }
  }

  /** A model is in the flat list exactly when some group holds it. */
  lemma {:induction false} FlattenMember(groups: seq<Group>, m: Model)
    ensures m in Flatten(groups) <==> exists g :: 0 <= g < |groups| && m in groups[g].rows
  {
    if |groups| > 0 {
      FlattenMember(groups[1..], m);
      if m in Flatten(groups[1..]) {
        var g :| 0 <= g < |groups[1..]| && m in groups[1..][g].rows;
        assert m in groups[g + 1].rows;
      }
      if exists g :: 0 <= g < |groups| && m in groups[g].rows {
        var g :| 0 <= g < |groups| && m in groups[g].rows;
        if g > 0 {
          assert m in groups[1..][g - 1].rows;
        }
      }
    }
  }

  /** The final "remove empty groups" pass changes nothing: the result is the optional
      pinned group followed by the provider groups. */
  lemma MenuShape(o: Oracle, providers: seq<Provider>, pins: seq<string>, mentioned: seq<Model>, search: string)
    ensures MenuGroups(o, providers, pins, mentioned, search)
         == PinnedPart(o, providers, pins, mentioned) + ProviderGroups(o, providers, pins, mentioned, search)
  {
    var pg := ProviderGroups(o, providers, pins, mentioned, search);
    var all := PinnedPart(o, providers, pins, mentioned) + pg;
    forall g | g in all
      ensures NonEmpty(g)
    {
      if g in pg {
        var i :| 0 <= i < |pg| && pg[i] == g;
      }
    }
    FilterAllPass(NonEmpty, all);
  }

  /** Providers without models would only contribute empty groups, so skipping them first
      does not change the provider groups. */
  lemma {:induction false} SkippingEmptyProviders(o: Oracle, ps: seq<Provider>, pins: seq<string>, mentioned: seq<Model>, search: string)
    ensures Filter(NonEmpty, AllProviderGroups(o, Filter(HasModels, ps), pins, mentioned, search))
         == Filter(NonEmpty, AllProviderGroups(o, ps, pins, mentioned, search))
  {
    if |ps| > 0 {
      SkippingEmptyProviders(o, ps[1..], pins, mentioned, search);
      var head := ProviderGroupOf(o, ps[0], pins, mentioned, search);
      var all := AllProviderGroups(o, ps, pins, mentioned, search);
      assert all == [head] + AllProviderGroups(o, ps[1..], pins, mentioned, search);
      FilterConcat(NonEmpty, [head], AllProviderGroups(o, ps[1..], pins, mentioned, search));
      if HasModels(ps[0]) {
        var kept := Filter(HasModels, ps);
        assert kept == [ps[0]] + Filter(HasModels, ps[1..]);
        var allKept := AllProviderGroups(o, kept, pins, mentioned, search);
        assert allKept == [head] + AllProviderGroups(o, Filter(HasModels, ps[1..]), pins, mentioned, search);
        FilterConcat(NonEmpty, [head], AllProviderGroups(o, Filter(HasModels, ps[1..]), pins, mentioned, search));
      } else {
        assert RegularRows(o, ps[0], pins, mentioned, search) == [];
        assert Filter(NonEmpty, [head]) == [];
      }
    }
  }

  /** The provider groups are the per-provider groups, in provider order, with exactly the
      empty ones deleted. */
  lemma ProviderGroupsInProviderOrder(o: Oracle, providers: seq<Provider>, pins: seq<string>, mentioned: seq<Model>, search: string)
    ensures ProviderGroups(o, providers, pins, mentioned, search)
         == Filter(NonEmpty, AllProviderGroups(o, providers, pins, mentioned, search))
    ensures IsSubsequence(ProviderGroups(o, providers, pins, mentioned, search),
                          AllProviderGroups(o, providers, pins, mentioned, search))
  {
    SkippingEmptyProviders(o, providers, pins, mentioned, search);
    FilterIsSubsequence(NonEmpty, AllProviderGroups(o, providers, pins, mentioned, search));
  }

  /** `g` is the regular group of one of the providers. */
  ghost predicate FromSomeProvider(o: Oracle, providers: seq<Provider>, pins: seq<string>, mentioned: seq<Model>, search: string, g: Group)
  {
    exists p :: p in providers && g == ProviderGroupOf(o, p, pins, mentioned, search)
  }

  /** Each provider group is the non-empty regular group of one of the providers. */
  lemma ProviderGroupFromProvider(o: Oracle, providers: seq<Provider>, pins: seq<string>, mentioned: seq<Model>, search: string)
    ensures var pg := ProviderGroups(o, providers, pins, mentioned, search);
      forall i :: 0 <= i < |pg| ==>
        && pg[i].key.ProviderGroup?
        && |pg[i].rows| > 0
        && FromSomeProvider(o, providers, pins, mentioned, search, pg[i])
  {
    var all := AllProviderGroups(o, providers, pins, mentioned, search);
    var pg := ProviderGroups(o, providers, pins, mentioned, search);
    SkippingEmptyProviders(o, providers, pins, mentioned, search);
    assert pg == Filter(NonEmpty, all);
    forall i | 0 <= i < |pg|
      ensures pg[i].key.ProviderGroup? && |pg[i].rows| > 0
      ensures FromSomeProvider(o, providers, pins, mentioned, search, pg[i])
    {
      var k :| 0 <= k < |all| && all[k] == pg[i];
      assert providers[k] in providers;
    }
  }

  /** Every provider with at least one surviving model has its group. */
  lemma ProviderGroupComplete(o: Oracle, providers: seq<Provider>, pins: seq<string>, mentioned: seq<Model>, search: string, p: Provider)
    requires p in providers
    requires |RegularRows(o, p, pins, mentioned, search)| > 0
    ensures ProviderGroupOf(o, p, pins, mentioned, search) in ProviderGroups(o, providers, pins, mentioned, search)
  {
    var all := AllProviderGroups(o, providers, pins, mentioned, search);
    SkippingEmptyProviders(o, providers, pins, mentioned, search);
    var k :| 0 <= k < |providers| && providers[k] == p;
    assert all[k] == ProviderGroupOf(o, p, pins, mentioned, search);
    assert NonEmpty(all[k]);
  }

  /** The pinned rows are the catalog filtered by "pinned and not mentioned" alone, in
      provider/model order: no sorting, no embedding, rerank or search filter. */
  lemma {:induction false} PinnedRowsInCatalogOrder(o: Oracle, ps: seq<Provider>, pins: seq<string>, mentioned: seq<Model>)
    ensures PinnedRows(o, ps, pins, mentioned) == Filter(KeepPinnedFn(o, pins, mentioned), Catalog(ps))
  {
    var keep := KeepPinnedFn(o, pins, mentioned);
    if |ps| > 0 {
      PinnedRowsInCatalogOrder(o, ps[1..], pins, mentioned);
      FilterConcat(keep, ps[0].models, Catalog(ps[1..]));
      if HasModels(ps[0]) {
        assert Filter(HasModels, ps) == [ps[0]] + Filter(HasModels, ps[1..]);
        assert Filter(HasModels, ps)[1..] == Filter(HasModels, ps[1..]);
      } else {
        assert ps[0].models == [];
      }
    }
  }

  /** Where each returned group comes from: the pinned group can only be first and holds the
      pinned rows; every other group is one provider's regular rows. */
  lemma GroupOrigin(o: Oracle, providers: seq<Provider>, pins: seq<string>, mentioned: seq<Model>, search: string, i: int)
    requires 0 <= i < |MenuGroups(o, providers, pins, mentioned, search)|
    ensures var g := MenuGroups(o, providers, pins, mentioned, search)[i];
      || (i == 0 && g == Group(PinnedGroup, PinnedRows(o, providers, pins, mentioned)) && |pins| > 0)
      || (g.key.ProviderGroup? && FromSomeProvider(o, providers, pins, mentioned, search, g))
  {
    var r := MenuGroups(o, providers, pins, mentioned, search);
    var pp := PinnedPart(o, providers, pins, mentioned);
    var pg := ProviderGroups(o, providers, pins, mentioned, search);
    MenuShape(o, providers, pins, mentioned, search);
    assert r == pp + pg;
    if i < |pp| {
      assert |pins| > 0 && i == 0;
      assert (pp + pg)[i] == pp[i];
      assert r[i] == Group(PinnedGroup, PinnedRows(o, providers, pins, mentioned));
    } else {
      var g := pg[i - |pp|];
      ConcatIndexRight(pp, pg, i);
      ProviderGroupFromProvider(o, providers, pins, mentioned, search);
      assert g.key.ProviderGroup? && FromSomeProvider(o, providers, pins, mentioned, search, g);
    }
  }

  lemma ConcatIndexRight<T>(a: seq<T>, b: seq<T>, i: int)
    requires |a| <= i < |a| + |b|
    ensures (a + b)[i] == b[i - |a|]
  {
  }

  /** A model that is already mentioned is offered nowhere, pinned or not. */
  lemma MentionedNeverOffered(o: Oracle, providers: seq<Provider>, pins: seq<string>, mentioned: seq<Model>, search: string)
    ensures forall m :: m in Flatten(MenuGroups(o, providers, pins, mentioned, search)) ==> !IsMentioned(o, mentioned, m)
  {
    var groups := MenuGroups(o, providers, pins, mentioned, search);
    forall m | m in Flatten(groups)
      ensures !IsMentioned(o, mentioned, m)
    {
      FlattenMember(groups, m);
      var i :| 0 <= i < |groups| && m in groups[i].rows;
      GroupOrigin(o, providers, pins, mentioned, search, i);
      if groups[i].key.PinnedGroup? {
        PinnedRowsInCatalogOrder(o, providers, pins, mentioned);
        var rows := groups[i].rows;
        var k :| 0 <= k < |rows| && rows[k] == m;
      }
    }
  }

  /** A pinned model never shows in a provider group, so it is listed at most in the pinned
      group; and the pinned group, when present, is the first group. */
  lemma PinnedOnlyInPinnedGroup(o: Oracle, providers: seq<Provider>, pins: seq<string>, mentioned: seq<Model>, search: string, i: int)
    requires 0 <= i < |MenuGroups(o, providers, pins, mentioned, search)|
    ensures var g := MenuGroups(o, providers, pins, mentioned, search)[i];
      && (g.key.ProviderGroup? ==> forall m :: m in g.rows ==> o.uniqId(m) !in pins)
      && (g.key.PinnedGroup? ==> i == 0 && forall m :: m in g.rows ==> o.uniqId(m) in pins)
  {
    var g := MenuGroups(o, providers, pins, mentioned, search)[i];
    GroupOrigin(o, providers, pins, mentioned, search, i);
    if g.key.PinnedGroup? {
      PinnedRowsInCatalogOrder(o, providers, pins, mentioned);
      forall m | m in g.rows
        ensures o.uniqId(m) in pins
      {
        var k :| 0 <= k < |g.rows| && g.rows[k] == m;
      }
    }
  }

  // ---------------------------------------------------------------- pins as a set

  lemma RegularRowsPinSet(o: Oracle, p: Provider, pins1: seq<string>, pins2: seq<string>, mentioned: seq<Model>, search: string)
    requires forall x :: x in pins1 <==> x in pins2
    ensures RegularRows(o, p, pins1, mentioned, search) == RegularRows(o, p, pins2, mentioned, search)
  {
    FilterCongruent(KeepRegularFn(o, pins1, mentioned, search), KeepRegularFn(o, pins2, mentioned, search),
                    Sorting.SortBy(p.models, SortKeyOf));
  }

  lemma {:induction false} AllProviderGroupsPinSet(o: Oracle, ps: seq<Provider>, pins1: seq<string>, pins2: seq<string>, mentioned: seq<Model>, search: string)
    requires forall x :: x in pins1 <==> x in pins2
    ensures AllProviderGroups(o, ps, pins1, mentioned, search) == AllProviderGroups(o, ps, pins2, mentioned, search)
  {
    if |ps| > 0 {
      RegularRowsPinSet(o, ps[0], pins1, pins2, mentioned, search);
      AllProviderGroupsPinSet(o, ps[1..], pins1, pins2, mentioned, search);
    }
  }

  lemma {:induction false} PinnedRowsOfPinSet(o: Oracle, ps: seq<Provider>, pins1: seq<string>, pins2: seq<string>, mentioned: seq<Model>)
    requires forall x :: x in pins1 <==> x in pins2
    ensures PinnedRowsOf(o, ps, pins1, mentioned) == PinnedRowsOf(o, ps, pins2, mentioned)
  {
    if |ps| > 0 {
      FilterCongruent(KeepPinnedFn(o, pins1, mentioned), KeepPinnedFn(o, pins2, mentioned), ps[0].models);
      PinnedRowsOfPinSet(o, ps[1..], pins1, pins2, mentioned);
    }
  }

  /** The menu depends on the pins only as a set: order and repetitions do not matter. */
  lemma MenuDependsOnPinSet(o: Oracle, providers: seq<Provider>, pins1: seq<string>, pins2: seq<string>, mentioned: seq<Model>, search: string)
    requires forall x :: x in pins1 <==> x in pins2
    ensures MenuGroups(o, providers, pins1, mentioned, search) == MenuGroups(o, providers, pins2, mentioned, search)
  {
    AllProviderGroupsPinSet(o, Filter(HasModels, providers), pins1, pins2, mentioned, search);
    PinnedRowsOfPinSet(o, Filter(HasModels, providers), pins1, pins2, mentioned);
    if |pins1| > 0 {
      assert pins1[0] in pins2;
    }
    if |pins2| > 0 {
      assert pins2[0] in pins1;
    }
  }

  /** Toggling the same pin twice gives back the same menu, whether it started pinned or not. */
  lemma ToggleTwiceSameMenu(o: Oracle, providers: seq<Provider>, pins: seq<string>, id: string, mentioned: seq<Model>, search: string)
    ensures MenuGroups(o, providers, TogglePin(TogglePin(pins, id), id), mentioned, search)
         == MenuGroups(o, providers, pins, mentioned, search)
  {
    var twice := TogglePin(TogglePin(pins, id), id);
    if id !in pins {
      TogglePinTwiceRestores(pins, id);
    } else {
      assert id in twice;
      MenuDependsOnPinSet(o, providers, twice, pins, mentioned, search);
    }
  }

  lemma {:induction false} CatalogMember(ps: seq<Provider>, p: Provider, m: Model)
    requires p in ps && m in p.models
    ensures m in Catalog(ps)
  {
    if ps[0] != p {
      CatalogMember(ps[1..], p, m);
    }
  }

  /** Pinning a listed model moves it: out of its provider's group, into the pinned group,
      which then leads the menu. */
  lemma PinningMovesModel(o: Oracle, providers: seq<Provider>, pins: seq<string>, mentioned: seq<Model>, search: string, p: Provider, m: Model)
    requires p in providers && m in p.models
    requires KeepRegular(o, pins, mentioned, search, m)
    ensures m in RegularRows(o, p, pins, mentioned, search)
    ensures m !in PinnedRows(o, providers, pins, mentioned)
    ensures var pinned := TogglePin(pins, o.uniqId(m));
      && (forall q :: m !in RegularRows(o, q, pinned, mentioned, search))
      && m in PinnedRows(o, providers, pinned, mentioned)
      && |MenuGroups(o, providers, pinned, mentioned, search)| > 0
      && MenuGroups(o, providers, pinned, mentioned, search)[0] == Group(PinnedGroup, PinnedRows(o, providers, pinned, mentioned))
  {
    var pinned := TogglePin(pins, o.uniqId(m));
    var catalog := Catalog(providers);
    PinnedRowsInCatalogOrder(o, providers, pins, mentioned);
    PinnedRowsInCatalogOrder(o, providers, pinned, mentioned);
    CatalogMember(providers, p, m);
    var before := PinnedRows(o, providers, pins, mentioned);
    assert forall j :: 0 <= j < |before| ==> KeepPinned(o, pins, mentioned, before[j]);
    assert !KeepPinned(o, pins, mentioned, m);
    var k :| 0 <= k < |catalog| && catalog[k] == m;
    assert KeepPinnedFn(o, pinned, mentioned)(catalog[k]);
    var rows := PinnedRows(o, providers, pinned, mentioned);
    assert m in rows;
    MenuShape(o, providers, pinned, mentioned, search);
    assert PinnedPart(o, providers, pinned, mentioned) == [Group(PinnedGroup, rows)];
  }
}
