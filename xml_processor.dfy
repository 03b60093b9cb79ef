/** Document-level processing (Services/XmlProcessor.cs): every `item` of
    a parsed answer becomes a detailed record, an item whose extraction
    throws is reported and dropped, and a document that cannot be parsed,
    or whose processing throws, yields no list at all.

    The per-item extraction is a parameter, `extract`; the pipeline passes
    GameEnricher.EnrichGameFromXml, whose only property used here is that
    it keeps the record's id (`EnricherKeepsId`). */
module XmlProcessor {
  import opened Wrappers
  import opened Xml
  import opened Models
  import opened GameEnricher

  /** The records extracted, and the ids whose extraction threw (one
      `logError` call each, in order). */
  datatype Processed = Processed(games: seq<BoardGameDetailed>, failed: seq<int>)

  const Nothing: Processed := Processed([], [])

  /** What GameEnricher.EnrichGameFromXml is to this module: a record and an
      item in, the filled record or an exception out. */
  type Extractor = (BoardGameDetailed, Element) -> Result<BoardGameDetailed>

  /** Extraction never changes a record's id. */
  ghost predicate KeepsId(extract: Extractor) {
    forall g: BoardGameDetailed, item: Element :: extract(g, item).Success? ==> extract(g, item).value.id == g.id
  }

  lemma EnricherKeepsId()
    ensures KeepsId(EnrichGameFromXml)
  {
    forall g: BoardGameDetailed, item: Element
      ensures EnrichGameFromXml(g, item).Success? ==> EnrichGameFromXml(g, item).value.id == g.id
    {
    }
  }

  /** `(int?)item.Attribute("id")`: `None` when absent, `Failure` when the
      value is not a 32-bit integer. That exception is raised outside the
      per-item handler, so it ends the whole document. */
  function ItemId(item: Element): Result<Option<int>> {
    IntAttr(Some(item), "id")
  }

  /** The body of the `foreach`, applied to what the earlier items gave. */
  function Step(extract: Extractor, acc: Result<Processed>, item: Element): Result<Processed> {
    var p :- acc;
    var id :- ItemId(item);
    if id.None? then Success(p)
    else
      match extract(NewDetailed(id.value), item)
      case Failure => Success(p.(failed := p.failed + [id.value]))
      case Success(g) => Success(p.(games := p.games + [g]))
  }

  /** The `foreach` of ProcessXmlGames over a list of items. */
  function ProcessItems(extract: Extractor, items: seq<Element>): Result<Processed>
    decreases |items|
  {
    if items == [] then Success(Nothing) else Step(extract, ProcessItems(extract, items[..|items| - 1]), items[|items| - 1])
  }

  /** The outcome of two consecutive runs of items. */
  function Combine(p: Result<Processed>, q: Result<Processed>): Result<Processed> {
    if p.Failure? || q.Failure? then Failure
    else Success(Processed(p.value.games + q.value.games, p.value.failed + q.value.failed))
  }

  lemma StepCombine(extract: Extractor, p: Result<Processed>, q: Result<Processed>, item: Element)
    ensures Step(extract, Combine(p, q), item) == Combine(p, Step(extract, q, item))
  {
    if p.Success? && q.Success? {
      var a := p.value;
      var b := q.value;
      var id := ItemId(item);
      if id.Success? && id.value.Some? {
        var e := extract(NewDetailed(id.value.value), item);
        if e.Success? {
          assert a.games + (b.games + [e.value]) == (a.games + b.games) + [e.value];
        } else {
          assert a.failed + (b.failed + [id.value.value]) == (a.failed + b.failed) + [id.value.value];
        }
      }
    }
  }

  /** Items are processed independently and in document order: the result
      for `a + b` is the result for `a` followed by the result for `b`,
      unless one of them throws. */
  lemma {:induction false} ProcessItemsAppend(extract: Extractor, a: seq<Element>, b: seq<Element>)
    ensures ProcessItems(extract, a + b) == Combine(ProcessItems(extract, a), ProcessItems(extract, b))
    decreases |b|
  {
    if b == [] {
      assert a + b == a;
      if ProcessItems(extract, a).Success? {
        var p := ProcessItems(extract, a).value;
        assert p.games + [] == p.games && p.failed + [] == p.failed;
      }
    } else {
      var b' := b[..|b| - 1];
      var x := b[|b| - 1];
      assert (a + b)[..|a + b| - 1] == a + b';
      assert (a + b)[|a + b| - 1] == x;
      ProcessItemsAppend(extract, a, b');
      StepCombine(extract, ProcessItems(extract, a), ProcessItems(extract, b'), x);
    }
  }

  /** What one item contributes: nothing without an id, its id to the
      failures when extraction throws, otherwise its record, whose `Id` is
      the item's id. */
  lemma ProcessSingle(extract: Extractor, item: Element)
    requires KeepsId(extract)
    ensures ItemId(item).Failure? ==> ProcessItems(extract, [item]).Failure?
    ensures ItemId(item) == Success(None) ==> ProcessItems(extract, [item]) == Success(Nothing)
    ensures ItemId(item).Success? && ItemId(item).value.Some? ==>
      var id := ItemId(item).value.value;
      match extract(NewDetailed(id), item)
      case Failure => ProcessItems(extract, [item]) == Success(Processed([], [id]))
      case Success(g) => g.id == id && ProcessItems(extract, [item]) == Success(Processed([g], []))
  {
    assert [item][..0] == [];
    var single := Step(extract, Success(Nothing), item);
    assert ProcessItems(extract, [item]) == single;
    var id := ItemId(item);
    if id.Success? && id.value.Some? {
      var e := extract(NewDetailed(id.value.value), item);
      if e.Success? {
        assert [] + [e.value] == [e.value];
        assert single == Success(Processed([e.value], []));
      } else {
        assert [] + [id.value.value] == [id.value.value];
        assert single == Success(Processed([], [id.value.value]));
      }
    }
  }

  /** Processing throws exactly when some item has a malformed id. */
  lemma {:induction false} ProcessItemsSucceeds(extract: Extractor, items: seq<Element>)
    ensures ProcessItems(extract, items).Success? <==> forall k :: 0 <= k < |items| ==> ItemId(items[k]).Success?
    decreases |items|
  {
    if items != [] {
      var init := items[..|items| - 1];
      ProcessItemsSucceeds(extract, init);
      StepSucceeds(extract, ProcessItems(extract, init), items[|items| - 1]);
      AllSnoc(items, IdWellFormed);
    }
  }

  /** One more item throws exactly when its id is malformed. */
  lemma StepSucceeds(extract: Extractor, acc: Result<Processed>, item: Element)
    ensures Step(extract, acc, item).Success? <==> acc.Success? && IdWellFormed(item)
  {
  }

  predicate IdWellFormed(item: Element) {
    ItemId(item).Success?
  }

  /** Every item yields at most one record or one failure, so the output is
      never longer than the list of items. */
  lemma {:induction false} ProcessItemsLength(extract: Extractor, items: seq<Element>)
    requires ProcessItems(extract, items).Success?
    ensures |ProcessItems(extract, items).value.games| + |ProcessItems(extract, items).value.failed| <= |items|
    decreases |items|
  {
    if items != [] {
      ProcessItemsLength(extract, items[..|items| - 1]);
    }
  }

  /** Every record carries the id of one of the items. */
  lemma {:induction false} ProcessItemsIds(extract: Extractor, items: seq<Element>)
    requires KeepsId(extract)
    requires ProcessItems(extract, items).Success?
    ensures forall i :: 0 <= i < |ProcessItems(extract, items).value.games| ==>
      exists k :: 0 <= k < |items| && ItemId(items[k]) == Success(Some(ProcessItems(extract, items).value.games[i].id))
    decreases |items|
  {
    if items != [] {
      var n := |items| - 1;
      var init := items[..n];
      var acc := ProcessItems(extract, init);
      assert acc.Success?;
      ProcessItemsIds(extract, init);
      var r := ProcessItems(extract, items).value;
      forall i | 0 <= i < |r.games|
        ensures exists k :: 0 <= k < |items| && ItemId(items[k]) == Success(Some(r.games[i].id))
      {
        if i < |acc.value.games| {
          assert r.games[i] == acc.value.games[i];
          var k :| 0 <= k < |init| && ItemId(init[k]) == Success(Some(acc.value.games[i].id));
          assert items[k] == init[k];
        } else {
          assert ItemId(items[n]) == Success(Some(r.games[i].id));
        }
      }
    }
  }

  /** ProcessXmlGames: the `foreach` over the root's `item` children. */
  method ProcessXmlGames(extract: Extractor, root: Element) returns (r: Result<Processed>)
    ensures r == ProcessItems(extract, Elements(root, "item"))
  {
    var items := Elements(root, "item");
    var games: seq<BoardGameDetailed> := [];
    var failed: seq<int> := [];
    for i := 0 to |items|
      invariant ProcessItems(extract, items[..i]) == Success(Processed(games, failed))
    {
      var item := items[i];
      assert items[..i + 1][..i] == items[..i];
      var id := ItemId(item);
      if id.Failure? {
        ProcessItemsAppend(extract, items[..i + 1], items[i + 1..]);
        assert items[..i + 1] + items[i + 1..] == items;
        return Failure;
      }
      if id.value.Some? {
        var enriched := extract(NewDetailed(id.value.value), item);
        if enriched.Success? {
          games := games + [enriched.value];
        } else {
          failed := failed + [id.value.value];
        }
      }
    }
    assert items[..|items|] == items;
    r := Success(Processed(games, failed));
  }

  /** TryProcessXmlGames on values: `None` exactly when the text does not
      parse or processing throws, otherwise what ProcessXmlGames returns. */
  function ProcessDocument(extract: Extractor, doc: XmlDocument): (r: Option<Processed>)
    ensures r.None? <==> doc.Malformed? || ProcessItems(extract, Elements(doc.root, "item")).Failure?
    ensures r.Some? ==> Success(r.value) == ProcessItems(extract, Elements(doc.root, "item"))
  {
    match doc
    case Malformed => None
    case Document(root) =>
      match ProcessItems(extract, Elements(root, "item"))
      case Failure => None
      case Success(p) => Some(p)
  }

  /** TryProcessXmlGames: the parse and ProcessXmlGames inside one handler. */
  method TryProcessXmlGames(extract: Extractor, doc: XmlDocument) returns (r: Option<Processed>)
    ensures r == ProcessDocument(extract, doc)
  {
    if doc.Malformed? {
      return None;
    }
    var processed := ProcessXmlGames(extract, doc.root);
    if processed.Failure? {
      return None;
    }
    return Some(processed.value);
  }
}
