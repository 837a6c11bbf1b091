/** Worked scenarios for the model picker's candidate builder on a small catalog. */
module Scenarios {

  import opened Seqs
  import opened ModelCatalog
  import Sorting

  /** ASCII case folding, standing in for `toLowerCase` on these inputs. */
  function AsciiLower(s: string): (r: string)
    ensures |r| == |s|
  {
    if |s| == 0 then []
    else [if 'A' <= s[0] <= 'Z' then (s[0] as int + 32) as char else s[0]] + AsciiLower(s[1..])
  }

  /** Models are identified by their id; none is an embedding or rerank model. */
  function PlainOracle(): Oracle
  {
    Oracle((m: Model) => m.id, (m: Model) => false, (m: Model) => false, AsciiLower)
  }

  function Alpha(): Model { Model("a", "Alpha", "P1", "P1") }
  function Beta(): Model { Model("b", "Beta", "P1", "P1") }
  function P1(): Provider { Provider("P1", "P1", [Alpha(), Beta()]) }

  /** Only Alpha matches "al": its lowered name "alpha" starts with it; "beta", "a" and "b" do
      not contain it. */
  lemma OnlyAlphaMatchesAl()
    ensures MatchesSearch(PlainOracle(), "al", Alpha())
    ensures !MatchesSearch(PlainOracle(), "al", Beta())
  {
    assert AsciiLower("Alpha") == "alpha";
    assert AsciiLower("al") == "al";
    assert Includes("alpha", "al") by { assert "al" <= "alpha"; }
    assert AsciiLower("Beta") == "beta";
    assert AsciiLower("b") == "b";
    assert !Includes("beta", "al") by {
      assert !Includes("", "al");
      assert !Includes("a", "al");
      assert !Includes("ta", "al");
      assert !Includes("eta", "al");
    }
    assert !Includes("b", "al") by { assert !Includes("", "al"); }
  }

  /** Searching "al" keeps Alpha and drops Beta. */
  lemma SearchKeepsMatchingNames()
    ensures Flatten(MenuGroups(PlainOracle(), [P1()], [], [], "al")) == [Alpha()]
  {
    var o := PlainOracle();
    OnlyAlphaMatchesAl();
    SortedPair();
    assert Filter(KeepRegularFn(o, [], [], "al"), [Alpha(), Beta()]) == [Alpha()];
    assert RegularRows(o, P1(), [], [], "al") == [Alpha()];
    assert Filter(HasModels, [P1()]) == [P1()];
    assert PinnedPart(o, [P1()], [], []) == [];
    MenuShape(o, [P1()], [], [], "al");
    assert AllProviderGroups(o, [P1()], [], [], "al") == [Group(ProviderGroup("P1"), [Alpha()])];
    assert Filter(NonEmpty, [Group(ProviderGroup("P1"), [Alpha()])]) == [Group(ProviderGroup("P1"), [Alpha()])];
  }

  /** Alpha sorts before Beta, so sorting leaves the provider's models as they are. */
  lemma SortedPair()
    ensures Sorting.SortBy([Alpha(), Beta()], SortKeyOf) == [Alpha(), Beta()]
  {
    assert Sorting.KeyLe(SortKeyOf(Alpha()), SortKeyOf(Beta())) by {
      assert Sorting.LexLe("Alpha", "Beta");
    }
    assert [Alpha(), Beta()][1..] == [Beta()];
    assert Sorting.SortBy([Beta()], SortKeyOf) == [Beta()];
  }

  /** Pinning Beta with no search: a leading pinned group holding Beta, then P1 with Alpha. */
  lemma PinningMovesBetaToFront()
    ensures MenuGroups(PlainOracle(), [P1()], ["b"], [], "")
         == [Group(PinnedGroup, [Beta()]), Group(ProviderGroup("P1"), [Alpha()])]
  {
    var o := PlainOracle();
    SortedPair();
    assert Filter(KeepRegularFn(o, ["b"], [], ""), [Alpha(), Beta()]) == [Alpha()];
    assert RegularRows(o, P1(), ["b"], [], "") == [Alpha()];
    assert Filter(HasModels, [P1()]) == [P1()];
    assert Filter(KeepPinnedFn(o, ["b"], []), [Alpha(), Beta()]) == [Beta()];
    assert PinnedRows(o, [P1()], ["b"], []) == [Beta()];
    MenuShape(o, [P1()], ["b"], [], "");
    assert AllProviderGroups(o, [P1()], ["b"], [], "") == [Group(ProviderGroup("P1"), [Alpha()])];
    assert Filter(NonEmpty, [Group(ProviderGroup("P1"), [Alpha()])]) == [Group(ProviderGroup("P1"), [Alpha()])];
  }
}
