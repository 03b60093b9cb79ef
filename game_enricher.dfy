/** Per-item extraction (Services/GameEnricher.cs): one `item` element of
    the XML API's answer fills the fields of a detailed record.

    The source mutates the record it is given; the model returns the
    updated record. An exception thrown on the way (only the `(int?)`
    attribute conversions can throw) is `Failure`: the caller then drops
    the record, so its partially filled state is never observed. */
module GameEnricher {
  import opened Wrappers
  import opened Numerals
  import Text
  import opened Xml
  import opened Models

  // ---------------------------------------------------------------------
  // Attribute conversions

  /** `(int?)e?.Attribute(attr)`: `null` when the element or the attribute
      is missing, the number when the value is a 32-bit integer, and an
      exception (`Failure`) for any other value. */
  function IntAttr(e: Option<Element>, attr: string): (r: Result<Option<int>>)
    ensures r.Failure? <==> e.Some? && Attr(e.value, attr).Some? && ParseInt(Attr(e.value, attr).value).None?
    ensures r.Success? && r.value.Some? ==> IsInt32(r.value.value)
    ensures r.Success? ==> r.value == (if e.Some? && Attr(e.value, attr).Some? then ParseInt(Attr(e.value, attr).value) else None)
  {
    if e.None? then Success(None)
    else
      match Attr(e.value, attr)
      case None => Success(None)
      case Some(s) => if ParseInt(s).Some? then Success(ParseInt(s)) else Failure
  }

  /** The `value` of a child's attribute `value`, as the source looks up
      every scalar field: `item.Element(name)?.Attribute("value")?.Value`. */
  function ValueOf(e: Element, name: string): Option<string> {
    match Child(e, name)
    case None => None
    case Some(c) => Attr(c, "value")
  }

  // ---------------------------------------------------------------------
  // Name and link lists

  /** The `value` of the first `name` child whose `type` is "primary". */
  function PrimaryName(item: Element): Option<string> {
    match FirstWithAttr(Elements(item, "name"), "type", "primary")
    case None => None
    case Some(n) => Attr(n, "value")
  }

  /** A `link` element of the given type with a non-empty `value`. */
  predicate IsLink(c: Element, tag: string) {
    c.name == "link" && Attr(c, "type") == Some(tag) && Attr(c, "value").Some? && Attr(c, "value").value != ""
  }

  /** `Elements("link").Where(type == tag).Select(value).Where(non-empty)`
      over a list of children. */
  function LinkValues(children: seq<Element>, tag: string): (r: seq<string>)
    ensures |r| <= |children|
    decreases |children|
  {
    if children == [] then []
    else
      var init := LinkValues(children[..|children| - 1], tag);
      var c := children[|children| - 1];
      if IsLink(c, tag) then init + [Attr(c, "value").value] else init
  }

  /** The values of consecutive runs of children appear in document order. */
  lemma {:induction false} LinkValuesAppend(a: seq<Element>, b: seq<Element>, tag: string)
    ensures LinkValues(a + b, tag) == LinkValues(a, tag) + LinkValues(b, tag)
    decreases |b|
  {
    if b == [] {
      assert a + b == a;
    } else {
      var b' := b[..|b| - 1];
      assert (a + b)[..|a + b| - 1] == a + b';
      assert (a + b)[|a + b| - 1] == b[|b| - 1];
      LinkValuesAppend(a, b', tag);
    }
  }

  /** A string is collected exactly when some matching link carries it,
      and no collected string is empty. */
  lemma {:induction false} LinkValuesMembers(children: seq<Element>, tag: string, v: string)
    ensures v in LinkValues(children, tag) <==>
      exists k :: 0 <= k < |children| && IsLink(children[k], tag) && Attr(children[k], "value") == Some(v)
    ensures v in LinkValues(children, tag) ==> v != ""
    decreases |children|
  {
    if children != [] {
      var init := children[..|children| - 1];
      LinkValuesMembers(init, tag, v);
      assert forall k :: 0 <= k < |init| ==> init[k] == children[k];
    }
  }

  /** The five link lists of a detailed record. */
  datatype LinkKind = Category | Mechanic | Designer | Artist | Publisher

  function TypeTag(k: LinkKind): string {
    match k
    case Category => "boardgamecategory"
    case Mechanic => "boardgamemechanic"
    case Designer => "boardgamedesigner"
    case Artist => "boardgameartist"
    case Publisher => "boardgamepublisher"
  }

  function Links(g: BoardGameDetailed, k: LinkKind): seq<string> {
    match k
    case Category => g.categories
    case Mechanic => g.mechanics
    case Designer => g.designers
    case Artist => g.artists
    case Publisher => g.publishers
  }

  /** The new value of a link list: the collected values, or the old list
      when nothing was collected. */
  function ChosenLinks(item: Element, k: LinkKind, current: seq<string>): (r: seq<string>)
    ensures r == current || (r != [] && r == LinkValues(item.children, TypeTag(k)))
    ensures LinkValues(item.children, TypeTag(k)) != [] ==> r == LinkValues(item.children, TypeTag(k))
  {
    var found := LinkValues(item.children, TypeTag(k));
    if found != [] then found else current
  }

  // ---------------------------------------------------------------------
  // The suggested_numplayers poll

  predicate IsPlus(c: char) {
    c == '+'
  }

  /** The player count of a `results` group: `None` when `numplayers` is
      missing or empty, or does not parse once trailing '+' are removed. */
  function GroupPlayerCount(g: Element): (r: Option<int>)
    ensures r.Some? ==> IsInt32(r.value)
  {
    match Attr(g, "numplayers")
    case None => None
    case Some(s) => if s == "" then None else ParseInt(Text.TrimEnd(s, IsPlus))
  }

  /** An open-ended label such as "4+" counts as its number. */
  lemma OpenEndedLabel(g: Element, x: int)
    requires IsInt32(x)
    requires Attr(g, "numplayers") == Some(IntToString(x) + "+")
    ensures GroupPlayerCount(g) == Some(x)
  {
    var s := IntToString(x);
    var t := s + "+";
    assert t[..|t| - 1] == s;
    assert !IsPlus(s[|s| - 1]);
    assert Text.TrimEnd(s, IsPlus) == s;
    assert Text.TrimEnd(t, IsPlus) == s;
    ParseIntOfIntToString(x);
  }

  /** The concrete label of the poll: "4+" is read as 4. */
  lemma FourPlus(g: Element)
    requires Attr(g, "numplayers") == Some("4+")
    ensures GroupPlayerCount(g) == Some(4)
  {
    assert IntToString(4) + "+" == "4+";
    OpenEndedLabel(g, 4);
  }

  /** The three vote labels the source recognises. */
  datatype Vote = Best | Recommended | NotRecommended

  function Label(w: Vote): string {
    match w
    case Best => "Best"
    case Recommended => "Recommended"
    case NotRecommended => "Not Recommended"
  }

  function Count(rec: PlayerCountRecommendation, w: Vote): int {
    match w
    case Best => rec.best
    case Recommended => rec.recommended
    case NotRecommended => rec.notRecommended
  }

  /** `(int?)voteResult.Attribute("numvotes") ?? 0`. */
  function VoteCount(v: Element): (r: Result<int>)
    ensures r.Success? ==> IsInt32(r.value)
    ensures r.Failure? <==> Attr(v, "numvotes").Some? && ParseInt(Attr(v, "numvotes").value).None?
    ensures Attr(v, "numvotes").None? ==> r == Success(0)
    ensures r.Success? && Attr(v, "numvotes").Some? ==> Some(r.value) == ParseInt(Attr(v, "numvotes").value)
  {
    match Attr(v, "numvotes")
    case None => Success(0)
    case Some(s) => if ParseInt(s).Some? then Success(ParseInt(s).value) else Failure
  }

  /** Stores a vote count under the field its label names; other labels
      change nothing. */
  function Assign(rec: PlayerCountRecommendation, result: Option<string>, n: int): (r: PlayerCountRecommendation)
    ensures r.numPlayers == rec.numPlayers
    ensures forall w :: Count(r, w) == (if result == Some(Label(w)) then n else Count(rec, w))
  {
    if result == Some("Best") then rec.(best := n)
    else if result == Some("Recommended") then rec.(recommended := n)
    else if result == Some("Not Recommended") then rec.(notRecommended := n)
    else rec
  }

  function FreshRecommendation(players: int): PlayerCountRecommendation {
    PlayerCountRecommendation(players, 0, 0, 0)
  }

  /** The inner loop of the poll extraction: every `result` entry of a
      group in turn, starting from `rec`. */
  function Tally(votes: seq<Element>, rec: PlayerCountRecommendation): (r: Result<PlayerCountRecommendation>)
    ensures r.Success? ==> r.value.numPlayers == rec.numPlayers
    decreases |votes|
  {
    if votes == [] then Success(rec)
    else
      var acc :- Tally(votes[..|votes| - 1], rec);
      var v := votes[|votes| - 1];
      var n :- VoteCount(v);
      Success(Assign(acc, Attr(v, "value"), n))
  }

  /** A group's tally throws exactly when one of its entries carries a
      malformed `numvotes`, whatever that entry's label. */
  lemma {:induction false} TallySucceeds(votes: seq<Element>, rec: PlayerCountRecommendation)
    ensures Tally(votes, rec).Success? <==> forall k :: 0 <= k < |votes| ==> VoteCount(votes[k]).Success?
    decreases |votes|
  {
    if votes != [] {
      var init := votes[..|votes| - 1];
      TallySucceeds(init, rec);
      assert forall k :: 0 <= k < |init| ==> init[k] == votes[k];
    }
  }

  /** The entry's `value` attribute is the label of `w`. */
  predicate Labelled(v: Element, w: Vote) {
    Attr(v, "value") == Some(Label(w))
  }

  /** Entry `k` is the last one labelled `w`. */
  predicate LastLabelled(votes: seq<Element>, k: int, w: Vote) {
    0 <= k < |votes| && Labelled(votes[k], w) && forall j :: k < j < |votes| ==> !Labelled(votes[j], w)
  }

  /** Each vote field holds the count of the LAST entry carrying its label,
      and keeps its starting value when no entry carries it. */
  lemma {:induction false} TallyLastWins(votes: seq<Element>, rec: PlayerCountRecommendation, w: Vote)
    requires Tally(votes, rec).Success?
    ensures (forall k :: 0 <= k < |votes| ==> !Labelled(votes[k], w)) ==>
      Count(Tally(votes, rec).value, w) == Count(rec, w)
    ensures forall k :: LastLabelled(votes, k, w) ==> VoteCount(votes[k]) == Success(Count(Tally(votes, rec).value, w))
    decreases |votes|
  {
    if votes != [] {
      var n := |votes| - 1;
      var init := votes[..n];
      var last := votes[n];
      var acc := Tally(init, rec).value;
      var count := VoteCount(last).value;
      var r := Tally(votes, rec).value;
      assert r == Assign(acc, Attr(last, "value"), count);
      TallyLastWins(init, rec, w);
      if Labelled(last, w) {
        assert Count(r, w) == count;
        forall k | LastLabelled(votes, k, w)
          ensures k == n
        {
          assert k < n ==> !Labelled(last, w);
        }
      } else {
        assert Count(r, w) == Count(acc, w);
        forall k | LastLabelled(votes, k, w)
          ensures LastLabelled(init, k, w)
        {
          assert k != n;
          assert init[k] == votes[k];
          forall j | k < j < |init|
            ensures !Labelled(init[j], w)
          {
            assert init[j] == votes[j];
          }
        }
        if forall k :: 0 <= k < |votes| ==> !Labelled(votes[k], w) {
          forall k | 0 <= k < |init|
            ensures !Labelled(init[k], w)
          {
            assert init[k] == votes[k];
          }
        }
      }
    }
  }

  /** `FirstOrDefault(p => p.Attribute("name")?.Value == "suggested_numplayers")`. */
  function SuggestedPoll(item: Element): Option<Element> {
    FirstWithAttr(Elements(item, "poll"), "name", "suggested_numplayers")
  }

  /** The tally of a group that has a player count. */
  function GroupTally(g: Element): Result<PlayerCountRecommendation>
    requires GroupPlayerCount(g).Some?
  {
    Tally(Elements(g, "result"), FreshRecommendation(GroupPlayerCount(g).value))
  }

  /** The outer loop: one recommendation per group with a player count. */
  function Recommendations(groups: seq<Element>): (r: Result<seq<PlayerCountRecommendation>>)
    decreases |groups|
  {
    if groups == [] then Success([])
    else
      var init :- Recommendations(groups[..|groups| - 1]);
      var g := groups[|groups| - 1];
      if GroupPlayerCount(g).None? then Success(init)
      else
        var rec :- GroupTally(g);
        Success(init + [rec])
  }

  /** The groups that have a player count, in document order. */
  function Surviving(groups: seq<Element>): (r: seq<Element>)
    ensures forall k :: 0 <= k < |r| ==> GroupPlayerCount(r[k]).Some?
    decreases |groups|
  {
    if groups == [] then []
    else
      var init := Surviving(groups[..|groups| - 1]);
      var g := groups[|groups| - 1];
      if GroupPlayerCount(g).Some? then init + [g] else init
  }

  /** A single group is kept exactly when it has a player count. */
  lemma SurvivingSingle(g: Element)
    ensures Surviving([g]) == (if GroupPlayerCount(g).Some? then [g] else [])
  {
    assert [g][..0] == [];
  }

  /** Surviving keeps document order: the groups kept from `a + b` are
      those kept from `a` followed by those kept from `b`. */
  lemma {:induction false} SurvivingAppend(a: seq<Element>, b: seq<Element>)
    ensures Surviving(a + b) == Surviving(a) + Surviving(b)
    decreases |b|
  {
    if b == [] {
      assert a + b == a;
    } else {
      var b' := b[..|b| - 1];
      assert (a + b)[..|a + b| - 1] == a + b';
      assert (a + b)[|a + b| - 1] == b[|b| - 1];
      SurvivingAppend(a, b');
    }
  }

  /** The poll throws exactly when a group that has a player count holds a
      malformed vote count; skipped groups are never looked into. */
  lemma {:induction false} RecommendationsSucceed(groups: seq<Element>)
    ensures Recommendations(groups).Success? <==> forall k :: 0 <= k < |groups| ==> TalliesCleanly(groups[k])
    decreases |groups|
  {
    if groups != [] {
      var init := groups[..|groups| - 1];
      var g := groups[|groups| - 1];
      RecommendationsSucceed(init);
      assert forall k :: 0 <= k < |init| ==> init[k] == groups[k];
      AllSnoc(groups, TalliesCleanly);
      if Recommendations(init).Success? {
        assert Recommendations(groups).Success? <==> TalliesCleanly(g);
      } else {
        assert Recommendations(groups).Failure?;
      }
    }
  }

  /** A property holds of every element exactly when it holds of all but
      the last and of the last. */
  lemma AllSnoc<T>(s: seq<T>, p: T -> bool)
    requires s != []
    ensures (forall k :: 0 <= k < |s| ==> p(s[k])) <==>
      (forall k :: 0 <= k < |s| - 1 ==> p(s[k])) && p(s[|s| - 1])
  {
  }

  /** A group is skipped, or its tally does not throw. */
  predicate TalliesCleanly(g: Element) {
    GroupPlayerCount(g).None? || GroupTally(g).Success?
  }

  /** One recommendation per surviving group, in document order, each the
      tally of its group and carrying the group's player count. */
  lemma {:induction false} RecommendationsInOrder(groups: seq<Element>)
    requires Recommendations(groups).Success?
    ensures var r := Recommendations(groups).value;
      |r| == |Surviving(groups)| &&
      forall i :: 0 <= i < |r| ==>
        GroupTally(Surviving(groups)[i]) == Success(r[i]) &&
        r[i].numPlayers == GroupPlayerCount(Surviving(groups)[i]).value
    decreases |groups|
  {
    if groups != [] {
      var init := groups[..|groups| - 1];
      RecommendationsInOrder(init);
    }
  }

  /** The position of the first largest key: where a stable descending sort
      puts its first element. */
  function ArgMaxFirst(keys: seq<int>): (m: nat)
    requires |keys| >= 1
    ensures m < |keys|
    ensures forall k :: 0 <= k < |keys| ==> keys[k] <= keys[m]
    ensures forall k :: 0 <= k < m ==> keys[k] < keys[m]
    decreases |keys|
  {
    if |keys| == 1 then 0
    else
      var m := ArgMaxFirst(keys[..|keys| - 1]);
      if keys[|keys| - 1] > keys[m] then |keys| - 1 else m
  }

  /** The `Best` votes of each recommendation. */
  function BestKeys(recs: seq<PlayerCountRecommendation>): (keys: seq<int>)
    ensures |keys| == |recs| && forall k :: 0 <= k < |recs| ==> keys[k] == recs[k].best
  {
    seq(|recs|, k requires 0 <= k < |recs| => recs[k].best)
  }

  /** `Best + Recommended` of each recommendation, in unchecked 32-bit
      arithmetic as C# computes it. */
  function RecommendedKeys(recs: seq<PlayerCountRecommendation>): (keys: seq<int>)
    ensures |keys| == |recs| && forall k :: 0 <= k < |recs| ==> keys[k] == Wrap32(recs[k].best + recs[k].recommended)
  {
    seq(|recs|, k requires 0 <= k < |recs| => Wrap32(recs[k].best + recs[k].recommended))
  }

  /** `recs.OrderByDescending(key).FirstOrDefault()` and the test on its key:
      the player count of the first entry with the largest key when that key
      is positive, otherwise the current value. */
  function Derived(recs: seq<PlayerCountRecommendation>, keys: seq<int>, current: Option<int>): (r: Option<int>)
    requires |keys| == |recs|
    ensures (forall k :: 0 <= k < |keys| ==> keys[k] <= 0) ==> r == current
    ensures (exists k :: 0 <= k < |keys| && keys[k] > 0) ==>
      exists m :: 0 <= m < |keys| && r == Some(recs[m].numPlayers) && keys[m] > 0 &&
        (forall k :: 0 <= k < |keys| ==> keys[k] <= keys[m]) &&
        (forall k :: 0 <= k < m ==> keys[k] < keys[m])
  {
    if recs == [] then current
    else
      var m := ArgMaxFirst(keys);
      if keys[m] > 0 then Some(recs[m].numPlayers) else current
  }

  /** Ties on `Best` go to the first-listed entry, while the larger
      `Best + Recommended` sum decides the recommended count. */
  lemma TieGoesToFirstListed()
    ensures var recs := [PlayerCountRecommendation(2, 5, 1, 0), PlayerCountRecommendation(3, 5, 10, 0)];
      Derived(recs, BestKeys(recs), None) == Some(2) &&
      Derived(recs, RecommendedKeys(recs), None) == Some(3)
  {
    var recs := [PlayerCountRecommendation(2, 5, 1, 0), PlayerCountRecommendation(3, 5, 10, 0)];
    assert BestKeys(recs) == [5, 5];
    assert RecommendedKeys(recs) == [6, 15];
  }

  /** ExtractPlayerCountRecommendations on values. */
  function PlayerCountsApplied(game: BoardGameDetailed, item: Element): (r: Result<BoardGameDetailed>)
    ensures r.Failure? <==> PollMalformed(item)
    ensures r.Success? ==> r.value.id == game.id
  {
    match SuggestedPoll(item)
    case None => Success(game)
    case Some(poll) =>
      var recs :- Recommendations(Elements(poll, "results"));
      Success(game.(playerCountRecommendations := recs,
                    bestPlayerCount := Derived(recs, BestKeys(recs), game.bestPlayerCount),
                    recommendedPlayerCount := Derived(recs, RecommendedKeys(recs), game.recommendedPlayerCount)))
  }

  /** Without the poll nothing changes; with it, only the three poll
      fields do. */
  lemma PlayerCountsFrame(game: BoardGameDetailed, item: Element)
    ensures SuggestedPoll(item).None? ==> PlayerCountsApplied(game, item) == Success(game)
    ensures var r := PlayerCountsApplied(game, item);
      r.Success? ==> r.value == game.(playerCountRecommendations := r.value.playerCountRecommendations,
                                      bestPlayerCount := r.value.bestPlayerCount,
                                      recommendedPlayerCount := r.value.recommendedPlayerCount)
  {
  }

  /** The poll is present and one of its counted groups has a malformed
      vote count. */
  predicate PollMalformed(item: Element) {
    SuggestedPoll(item).Some? && Recommendations(Elements(SuggestedPoll(item).value, "results")).Failure?
  }

  /** One more entry of a group. */
  lemma TallyStep(votes: seq<Element>, j: nat, rec: PlayerCountRecommendation, acc: PlayerCountRecommendation, n: int)
    requires j < |votes|
    requires Tally(votes[..j], rec) == Success(acc)
    requires VoteCount(votes[j]) == Success(n)
    ensures Tally(votes[..j + 1], rec) == Success(Assign(acc, Attr(votes[j], "value"), n))
  {
    assert votes[..j + 1][..j] == votes[..j];
  }

  /** A group whose tally throws makes the whole poll throw. */
  lemma GroupThrows(groups: seq<Element>, i: nat)
    requires i < |groups| && GroupPlayerCount(groups[i]).Some? && GroupTally(groups[i]).Failure?
    ensures Recommendations(groups).Failure?
  {
    assert !TalliesCleanly(groups[i]);
    RecommendationsSucceed(groups);
  }

  /** One more group of the poll. */
  lemma RecommendationsStep(groups: seq<Element>, i: nat, recs: seq<PlayerCountRecommendation>)
    requires i < |groups|
    requires Recommendations(groups[..i]) == Success(recs)
    ensures GroupPlayerCount(groups[i]).None? ==> Recommendations(groups[..i + 1]) == Success(recs)
    ensures GroupPlayerCount(groups[i]).Some? && GroupTally(groups[i]).Success? ==>
      Recommendations(groups[..i + 1]) == Success(recs + [GroupTally(groups[i]).value])
  {
    assert groups[..i + 1][..i] == groups[..i];
  }

  /** The inner `foreach` of the source: the entries of one group. */
  method TallyVotes(votes: seq<Element>, start: PlayerCountRecommendation)
    returns (r: Result<PlayerCountRecommendation>)
    ensures r == Tally(votes, start)
  {
    var rec := start;
    var j := 0;
    while j < |votes|
      invariant 0 <= j <= |votes|
      invariant Tally(votes[..j], start) == Success(rec)
    {
      var v := votes[j];
      var numVotes := 0;
      var attr := Attr(v, "numvotes");
      if attr.Some? {
        var parsed := ParseInt(attr.value);
        if parsed.None? {
          TallySucceeds(votes, start);
          return Failure;
        }
        numVotes := parsed.value;
      }
      TallyStep(votes, j, start, rec, numVotes);
      var value := Attr(v, "value");
      if value == Some("Best") {
        rec := rec.(best := numVotes);
      } else if value == Some("Recommended") {
        rec := rec.(recommended := numVotes);
      } else if value == Some("Not Recommended") {
        rec := rec.(notRecommended := numVotes);
      }
      j := j + 1;
    }
    assert votes[..j] == votes;
    r := Success(rec);
  }

  /** The outer `foreach` of the source over the groups of the poll, and
      the derived counts. */
  method ExtractPlayerCountRecommendations(game: BoardGameDetailed, item: Element)
    returns (r: Result<BoardGameDetailed>)
    ensures r == PlayerCountsApplied(game, item)
  {
    var poll := SuggestedPoll(item);
    if poll.None? {
      return Success(game);
    }
    var groups := Elements(poll.value, "results");
    var recommendations: seq<PlayerCountRecommendation> := [];
    var i := 0;
    while i < |groups|
      invariant 0 <= i <= |groups|
      invariant Recommendations(groups[..i]) == Success(recommendations)
    {
      var g := groups[i];
      var numPlayers := Attr(g, "numplayers");
      var players: Option<int> := None;
      if numPlayers.Some? && numPlayers.value != "" {
        players := ParseInt(Text.TrimEnd(numPlayers.value, IsPlus));
      }
      assert players == GroupPlayerCount(g);
      RecommendationsStep(groups, i, recommendations);
      if players.Some? {
        var rec := TallyVotes(Elements(g, "result"), FreshRecommendation(players.value));
        if rec.Failure? {
          GroupThrows(groups, i);
          return Failure;
        }
        recommendations := recommendations + [rec.value];
      }
      i := i + 1;
    }
    assert groups[..i] == groups;
    r := Success(game.(playerCountRecommendations := recommendations,
                       bestPlayerCount := Derived(recommendations, BestKeys(recommendations), game.bestPlayerCount),
                       recommendedPlayerCount := Derived(recommendations, RecommendedKeys(recommendations), game.recommendedPlayerCount)));
  }

  // ---------------------------------------------------------------------
  // Statistics

  /** `item.Element("statistics")?.Element("ratings")`. */
  function Ratings(item: Element): Option<Element> {
    match Child(item, "statistics")
    case None => None
    case Some(s) => Child(s, "ratings")
  }

  /** An `int.TryParse` field: replaced when the value is present and
      parses, kept otherwise. */
  function TryInt(ratings: Element, name: string, current: Option<int>): (r: Option<int>)
    ensures r == current || (ValueOf(ratings, name).Some? && r == ParseInt(ValueOf(ratings, name).value) && r.Some?)
    ensures ValueOf(ratings, name).Some? && ParseInt(ValueOf(ratings, name).value).Some? ==>
      r == ParseInt(ValueOf(ratings, name).value)
  {
    var s := ValueOf(ratings, name);
    if s.Some? && ParseInt(s.value).Some? then ParseInt(s.value) else current
  }

  /** A `double.TryParse` field, with the same rule. */
  function TryDouble(ratings: Element, name: string, current: Option<Double>): (r: Option<Double>)
    ensures r == current || (ValueOf(ratings, name).Some? && r == ParseDouble(ValueOf(ratings, name).value) && r.Some?)
    ensures ValueOf(ratings, name).Some? && ParseDouble(ValueOf(ratings, name).value).Some? ==>
      r == ParseDouble(ValueOf(ratings, name).value)
  {
    var s := ValueOf(ratings, name);
    if s.Some? && ParseDouble(s.value).Some? then ParseDouble(s.value) else current
  }

  /** The first `rank` of `ranks` whose `name` is "boardgame". */
  function BoardGameRank(ratings: Element): Option<Element> {
    match Child(ratings, "ranks")
    case None => None
    case Some(ranks) => FirstWithAttr(Elements(ranks, "rank"), "name", "boardgame")
  }

  /** The rank that entry gives, if any. */
  function RankValue(ratings: Element): Option<int> {
    match BoardGameRank(ratings)
    case None => None
    case Some(e) =>
      match Attr(e, "value")
      case None => None
      case Some(v) => if v != "Not Ranked" then ParseInt(v) else None
  }

  /** ExtractStatistics on values. */
  function ExtractStatistics(game: BoardGameDetailed, item: Element): (r: BoardGameDetailed)
    ensures r.id == game.id
  {
    match Ratings(item)
    case None => game
    case Some(ra) =>
      game.(usersRated := TryInt(ra, "usersrated", game.usersRated),
            average := TryDouble(ra, "average", game.average),
            bayesAverage := TryDouble(ra, "bayesaverage", game.bayesAverage),
            standardDeviation := TryDouble(ra, "stddev", game.standardDeviation),
            rank := if RankValue(ra).Some? then RankValue(ra) else game.rank,
            owned := TryInt(ra, "owned", game.owned),
            trading := TryInt(ra, "trading", game.trading),
            wanting := TryInt(ra, "wanting", game.wanting),
            wishing := TryInt(ra, "wishing", game.wishing),
            numComments := TryInt(ra, "numcomments", game.numComments),
            numWeights := TryInt(ra, "numweights", game.numWeights),
            averageWeight := TryDouble(ra, "averageweight", game.averageWeight))
  }

  /** Nothing but the statistics fields changes, and nothing at all
      without `statistics/ratings`. */
  lemma StatisticsFrame(game: BoardGameDetailed, item: Element)
    ensures Ratings(item).None? ==> ExtractStatistics(game, item) == game
    ensures var r := ExtractStatistics(game, item);
      r == game.(usersRated := r.usersRated, average := r.average, bayesAverage := r.bayesAverage,
                 standardDeviation := r.standardDeviation, rank := r.rank, owned := r.owned,
                 trading := r.trading, wanting := r.wanting, wishing := r.wishing,
                 numComments := r.numComments, numWeights := r.numWeights,
                 averageWeight := r.averageWeight)
  {
  }

  /** The rank changes only to the number of the first "boardgame" entry,
      and a "Not Ranked" entry leaves it as it was. */
  lemma RankRule(game: BoardGameDetailed, item: Element)
    ensures var r := ExtractStatistics(game, item);
      (r.rank == game.rank ||
       (Ratings(item).Some? && BoardGameRank(Ratings(item).value).Some? &&
        var e := BoardGameRank(Ratings(item).value).value;
        Attr(e, "name") == Some("boardgame") && Attr(e, "value").Some? &&
        Attr(e, "value").value != "Not Ranked" && r.rank.Some? && r.rank == ParseInt(Attr(e, "value").value))) &&
      ((Ratings(item).Some? && BoardGameRank(Ratings(item).value).Some? &&
        Attr(BoardGameRank(Ratings(item).value).value, "value") == Some("Not Ranked")) ==> r.rank == game.rank) &&
      (Ratings(item).Some? && RankValue(Ratings(item).value).Some? ==> r.rank == RankValue(Ratings(item).value))
  {
  }

  /** The seven `int.TryParse` statistics. */
  datatype IntStatistic = UsersRated | Owned | Trading | Wanting | Wishing | NumComments | NumWeights

  function IntStatisticTag(k: IntStatistic): string {
    match k
    case UsersRated => "usersrated"
    case Owned => "owned"
    case Trading => "trading"
    case Wanting => "wanting"
    case Wishing => "wishing"
    case NumComments => "numcomments"
    case NumWeights => "numweights"
  }

  function IntStatisticOf(g: BoardGameDetailed, k: IntStatistic): Option<int> {
    match k
    case UsersRated => g.usersRated
    case Owned => g.owned
    case Trading => g.trading
    case Wanting => g.wanting
    case Wishing => g.wishing
    case NumComments => g.numComments
    case NumWeights => g.numWeights
  }

  /** The four `double.TryParse` statistics. */
  datatype DoubleStatistic = Average | BayesAverage | StandardDeviation | AverageWeight

  function DoubleStatisticTag(k: DoubleStatistic): string {
    match k
    case Average => "average"
    case BayesAverage => "bayesaverage"
    case StandardDeviation => "stddev"
    case AverageWeight => "averageweight"
  }

  function DoubleStatisticOf(g: BoardGameDetailed, k: DoubleStatistic): Option<Double> {
    match k
    case Average => g.average
    case BayesAverage => g.bayesAverage
    case StandardDeviation => g.standardDeviation
    case AverageWeight => g.averageWeight
  }

  /** Each integer statistic is the parse of its `value` when there is a
      ratings block and the value is a 32-bit integer, and stays as it was
      otherwise. */
  lemma IntStatisticRule(game: BoardGameDetailed, item: Element, k: IntStatistic)
    ensures var r := ExtractStatistics(game, item);
      (Ratings(item).Some? && ValueOf(Ratings(item).value, IntStatisticTag(k)).Some? &&
       ParseInt(ValueOf(Ratings(item).value, IntStatisticTag(k)).value).Some? ==>
         IntStatisticOf(r, k) == ParseInt(ValueOf(Ratings(item).value, IntStatisticTag(k)).value)) &&
      (Ratings(item).None? || ValueOf(Ratings(item).value, IntStatisticTag(k)).None? ||
       ParseInt(ValueOf(Ratings(item).value, IntStatisticTag(k)).value).None? ==>
         IntStatisticOf(r, k) == IntStatisticOf(game, k))
  {
  }

  /** Each double statistic follows the same rule with the float grammar. */
  lemma DoubleStatisticRule(game: BoardGameDetailed, item: Element, k: DoubleStatistic)
    ensures var r := ExtractStatistics(game, item);
      (Ratings(item).Some? && ValueOf(Ratings(item).value, DoubleStatisticTag(k)).Some? &&
       ParseDouble(ValueOf(Ratings(item).value, DoubleStatisticTag(k)).value).Some? ==>
         DoubleStatisticOf(r, k) == ParseDouble(ValueOf(Ratings(item).value, DoubleStatisticTag(k)).value)) &&
      (Ratings(item).None? || ValueOf(Ratings(item).value, DoubleStatisticTag(k)).None? ||
       ParseDouble(ValueOf(Ratings(item).value, DoubleStatisticTag(k)).value).None? ==>
         DoubleStatisticOf(r, k) == DoubleStatisticOf(game, k))
  {
  }

  // ---------------------------------------------------------------------
  // The whole item

  /** `item.Element("description")?.Value?.Trim()`. */
  function Description(item: Element): Option<string> {
    match Child(item, "description")
    case None => None
    case Some(d) => Some(Text.Trim(d.text, Text.IsWhiteSpace))
  }

  predicate MalformedInt(item: Element, field: string) {
    IntAttr(Child(item, field), "value").Failure?
  }

  /** One of the seven integer attributes the `(int?)` conversion reads is
      present and not a 32-bit integer. */
  predicate SomeIntMalformed(item: Element) {
    MalformedInt(item, "yearpublished") || MalformedInt(item, "minplayers") ||
    MalformedInt(item, "maxplayers") || MalformedInt(item, "minplaytime") ||
    MalformedInt(item, "maxplaytime") || MalformedInt(item, "playingtime") ||
    MalformedInt(item, "minage")
  }

  /** The scalar part of EnrichGameFromXml: name, year, description and the
      six optional integers. */
  function Scalars(game: BoardGameDetailed, item: Element): (r: Result<BoardGameDetailed>)
    ensures r.Failure? <==> SomeIntMalformed(item)
    ensures r.Success? ==> r.value.id == game.id
  {
    var primary := PrimaryName(item);
    var g1 := if primary.Some? && primary.value != "" then game.(name := primary.value) else game;
    var year :- IntAttr(Child(item, "yearpublished"), "value");
    var g2 := if year.Some? then g1.(yearPublished := year.value) else g1;
    var g3 := g2.(description := Description(item));
    var minPlayers :- IntAttr(Child(item, "minplayers"), "value");
    var maxPlayers :- IntAttr(Child(item, "maxplayers"), "value");
    var minPlayTime :- IntAttr(Child(item, "minplaytime"), "value");
    var maxPlayTime :- IntAttr(Child(item, "maxplaytime"), "value");
    var playingTime :- IntAttr(Child(item, "playingtime"), "value");
    var minAge :- IntAttr(Child(item, "minage"), "value");
    Success(g3.(minPlayers := minPlayers, maxPlayers := maxPlayers, minPlayTime := minPlayTime,
                maxPlayTime := maxPlayTime, playingTime := playingTime, minAge := minAge))
  }

  /** The five link lists of EnrichGameFromXml. */
  function WithLinks(game: BoardGameDetailed, item: Element): (r: BoardGameDetailed)
    ensures r.id == game.id
  {
    game.(categories := ChosenLinks(item, Category, game.categories),
          mechanics := ChosenLinks(item, Mechanic, game.mechanics),
          designers := ChosenLinks(item, Designer, game.designers),
          artists := ChosenLinks(item, Artist, game.artists),
          publishers := ChosenLinks(item, Publisher, game.publishers))
  }

  /** The scalar stage changes the scalar fields only. */
  lemma ScalarsFrame(game: BoardGameDetailed, item: Element)
    ensures var r := Scalars(game, item);
      r.Success? ==> r.value == game.(name := r.value.name, yearPublished := r.value.yearPublished,
                                      description := r.value.description,
                                      minPlayers := r.value.minPlayers, maxPlayers := r.value.maxPlayers,
                                      minPlayTime := r.value.minPlayTime, maxPlayTime := r.value.maxPlayTime,
                                      playingTime := r.value.playingTime, minAge := r.value.minAge)
  {
  }

  /** EnrichGameFromXml: the steps of the source in their order. */
  function EnrichGameFromXml(game: BoardGameDetailed, item: Element): (r: Result<BoardGameDetailed>)
    ensures r.Success? ==> r.value.id == game.id
  {
    var g1 :- Scalars(game, item);
    var g2 :- PlayerCountsApplied(WithLinks(g1, item), item);
    Success(ExtractStatistics(g2, item))
  }

  /** The extraction throws exactly when one of the integer attributes is
      malformed or the poll holds a malformed vote count. */
  lemma EnrichFailure(game: BoardGameDetailed, item: Element)
    ensures EnrichGameFromXml(game, item).Failure? <==> SomeIntMalformed(item) || PollMalformed(item)
  {
  }

  /** A successful extraction is the four stages applied in turn. */
  lemma EnrichStages(game: BoardGameDetailed, item: Element)
    requires EnrichGameFromXml(game, item).Success?
    ensures Scalars(game, item).Success?
    ensures PlayerCountsApplied(WithLinks(Scalars(game, item).value, item), item).Success?
    ensures EnrichGameFromXml(game, item).value ==
      ExtractStatistics(PlayerCountsApplied(WithLinks(Scalars(game, item).value, item), item).value, item)
  {
  }

  /** The name is overwritten only by a non-empty primary name, and always
      by one; the year changes only to a value its attribute holds. */
  lemma NameAndYear(game: BoardGameDetailed, item: Element)
    requires EnrichGameFromXml(game, item).Success?
    ensures var r := EnrichGameFromXml(game, item).value;
      (r.name != game.name ==> PrimaryName(item) == Some(r.name) && r.name != "") &&
      (PrimaryName(item).Some? && PrimaryName(item).value != "" ==> r.name == PrimaryName(item).value) &&
      (r.yearPublished != game.yearPublished ==>
        ValueOf(item, "yearpublished").Some? && ParseInt(ValueOf(item, "yearpublished").value) == Some(r.yearPublished)) &&
      (ValueOf(item, "yearpublished").None? ==> r.yearPublished == game.yearPublished) &&
      (ValueOf(item, "yearpublished").Some? ==> ParseInt(ValueOf(item, "yearpublished").value) == Some(r.yearPublished))
  {
    EnrichStages(game, item);
    var g1 := Scalars(game, item).value;
    var g2 := WithLinks(g1, item);
    var g3 := PlayerCountsApplied(g2, item).value;
    var r := ExtractStatistics(g3, item);
    assert r.name == g3.name == g2.name == g1.name;
    assert r.yearPublished == g3.yearPublished == g2.yearPublished == g1.yearPublished;
  }

  /** Each link list becomes the collected values, or stays as it was when
      none were collected. */
  lemma LinkListRule(game: BoardGameDetailed, item: Element, k: LinkKind)
    requires EnrichGameFromXml(game, item).Success?
    ensures Links(EnrichGameFromXml(game, item).value, k) == ChosenLinks(item, k, Links(game, k))
  {
    EnrichStages(game, item);
    var g1 := Scalars(game, item).value;
    var g2 := WithLinks(g1, item);
    var g3 := PlayerCountsApplied(g2, item).value;
    ScalarsKeepLinks(game, item, k);
    WithLinksSets(g1, item, k);
    PollKeepsLinks(g2, item, k);
    StatisticsKeepLinks(g3, item, k);
  }

  lemma ScalarsKeepLinks(game: BoardGameDetailed, item: Element, k: LinkKind)
    requires Scalars(game, item).Success?
    ensures Links(Scalars(game, item).value, k) == Links(game, k)
  {
    ScalarsFrame(game, item);
  }

  lemma WithLinksSets(game: BoardGameDetailed, item: Element, k: LinkKind)
    ensures Links(WithLinks(game, item), k) == ChosenLinks(item, k, Links(game, k))
  {
  }

  lemma PollKeepsLinks(game: BoardGameDetailed, item: Element, k: LinkKind)
    requires PlayerCountsApplied(game, item).Success?
    ensures Links(PlayerCountsApplied(game, item).value, k) == Links(game, k)
  {
  }

  lemma StatisticsKeepLinks(game: BoardGameDetailed, item: Element, k: LinkKind)
    ensures Links(ExtractStatistics(game, item), k) == Links(game, k)
  {
  }

  /** The six optional integers the scalar stage overwrites. */
  datatype ScalarInt = MinPlayers | MaxPlayers | MinPlayTime | MaxPlayTime | PlayingTime | MinAge

  function ScalarIntTag(k: ScalarInt): string {
    match k
    case MinPlayers => "minplayers"
    case MaxPlayers => "maxplayers"
    case MinPlayTime => "minplaytime"
    case MaxPlayTime => "maxplaytime"
    case PlayingTime => "playingtime"
    case MinAge => "minage"
  }

  function ScalarIntOf(g: BoardGameDetailed, k: ScalarInt): Option<int> {
    match k
    case MinPlayers => g.minPlayers
    case MaxPlayers => g.maxPlayers
    case MinPlayTime => g.minPlayTime
    case MaxPlayTime => g.maxPlayTime
    case PlayingTime => g.playingTime
    case MinAge => g.minAge
  }

  /** After a successful extraction each of the six integers is the parse
      of its attribute, and `null` when the element or the attribute is
      missing, whatever it was before; the description is the trimmed text
      of its element, `null` without one. */
  lemma ScalarFields(game: BoardGameDetailed, item: Element, k: ScalarInt)
    requires EnrichGameFromXml(game, item).Success?
    ensures var r := EnrichGameFromXml(game, item).value;
      ScalarIntOf(r, k) == (if ValueOf(item, ScalarIntTag(k)).Some? then ParseInt(ValueOf(item, ScalarIntTag(k)).value) else None) &&
      (ValueOf(item, ScalarIntTag(k)).Some? ==> ScalarIntOf(r, k).Some?) &&
      r.description == Description(item)
  {
    EnrichStages(game, item);
    var g1 := Scalars(game, item).value;
    var g2 := WithLinks(g1, item);
    var g3 := PlayerCountsApplied(g2, item).value;
    PlayerCountsFrame(g2, item);
    StatisticsFrame(g3, item);
    assert ScalarIntOf(g3, k) == ScalarIntOf(g1, k) && g3.description == g1.description;
    var e := Child(item, ScalarIntTag(k));
    assert IntAttr(e, "value").Success?;
  }
}
