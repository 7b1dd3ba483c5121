/** Picking the bookable time slots out of the parsed booking page. */
module Parse {
  import opened Wrappers
  import opened Seqs
  import opened Text
  import opened Dom
  import opened Selector

  /** A bookable time and the link that books it. */
  datatype Slot = Slot(time: string, link: string)

  /** The `KeyError` that `link['href']` raises on an anchor without that
      attribute. */
  datatype ParseError = MissingHref

  predicate HasHref(n: Node)
  {
    n.Element? && n.href.Some?
  }

  /** `[(link.text.strip(), link['href']) for link in anchors]`, which stops at
      the first anchor lacking an `href`. */
  function SlotsOf(anchors: seq<Node>): (r: Result<seq<Slot>, ParseError>)
    ensures r.Ok? <==> forall k :: 0 <= k < |anchors| ==> HasHref(anchors[k])
    ensures r.Err? ==> r.error == MissingHref
    ensures r.Ok? ==> |r.value| == |anchors|
    ensures r.Ok? ==> forall k :: 0 <= k < |anchors| ==>
      r.value[k].time == Strip(TextOf(anchors[k])) && Some(r.value[k].link) == anchors[k].href
  {
    if |anchors| == 0 then Ok([])
    else if !HasHref(anchors[0]) then Err(MissingHref)
    else
      match SlotsOf(anchors[1..])
      case Ok(rest) => Ok([Slot(Strip(TextOf(anchors[0])), anchors[0].href.value)] + rest)
      case Err(e) => Err(e)
  }

  /** The available slots on a parsed page: one `(time, link)` pair per
      element the selector matches, unless one of them has no `href`
      (`ParsedSlotFields` and `ParsedSlotsFollowDocument` say which pair). */
  function ParseTimeSlots(doc: Document): (r: Result<seq<Slot>, ParseError>)
    ensures r.Ok? <==> forall k :: 0 <= k < |Selected(doc)| ==> HasHref(Selected(doc)[k])
    ensures r.Ok? ==> |r.value| == |Selected(doc)|
  {
    SelectDocument(doc);
    SlotsOf(Select(doc, Outside))
  }

  /** `time` is `text` with a run of whitespace cut from each end and no
      whitespace left at either end. */
  ghost predicate TrimmedFrom(time: string, text: string)
  {
    exists i, j :: TrimsTo(text, i, j) && time == text[i..j]
  }

  /** Each slot's time is its anchor's text with the surrounding whitespace
      cut off, and its link is the anchor's `href` unchanged; the anchors are
      the selector's matches, in order. */
  lemma ParsedSlotFields(doc: Document)
    requires ParseTimeSlots(doc).Ok?
    ensures |ParseTimeSlots(doc).value| == |Selected(doc)|
    ensures forall k :: 0 <= k < |ParseTimeSlots(doc).value| ==>
      && Some(ParseTimeSlots(doc).value[k].link) == Selected(doc)[k].href
      && Trimmed(ParseTimeSlots(doc).value[k].time)
      && TrimmedFrom(ParseTimeSlots(doc).value[k].time, TextOf(Selected(doc)[k]))
  {
    SelectDocument(doc);
    var slots := ParseTimeSlots(doc).value;
    var anchors := Selected(doc);
    forall k | 0 <= k < |slots|
      ensures TrimmedFrom(slots[k].time, TextOf(anchors[k]))
    {
      StripCuts(TextOf(anchors[k]));
    }
  }

  /** Slot `k` comes from the `k`-th element, in document order, that the
      selector matches: a non-sold-out `a` below a `div` below a
      `div.OPW_timesHolder`. Every such anchor yields exactly one slot, and
      no other element yields any. */
  lemma ParsedSlotsFollowDocument(doc: Document)
    requires ParseTimeSlots(doc).Ok?
    ensures var slots := ParseTimeSlots(doc).value;
      var all := Elements(doc, []);
      var at := FilterIndices(Matches, all);
      && |slots| == |at|
      && (forall k :: 0 <= k < |at| ==>
            && at[k] < |all|
            && all[at[k]].element.tag == "a"
            && SoldOutClass !in all[at[k]].element.classes
            && HasDivUnderHolder(all[at[k]].ancestors)
            && Some(slots[k].link) == all[at[k]].element.href
            && slots[k].time == Strip(TextOf(all[at[k]].element)))
      && (forall k, l :: 0 <= k < l < |at| ==> at[k] < at[l])
      && (forall j :: 0 <= j < |all| ==> (Matches(all[j]) <==> j in at))
  {
    SelectDocument(doc);
    var all := Elements(doc, []);
    FilterIndicesSelect(Matches, all);
    FilterIndicesIncreasing(Matches, all);
    forall j | 0 <= j < |all|
      ensures Matches(all[j]) <==> j in FilterIndices(Matches, all)
    {
      FilterIndicesComplete(Matches, all, j);
    }
    var at := FilterIndices(Matches, all);
    assert forall k :: 0 <= k < |at| ==> Filter(Matches, all)[k] in Filter(Matches, all);
  }

  /** Parsing fails exactly when some matched anchor has no `href`. */
  lemma ParseFailsOnlyWithoutHref(doc: Document)
    ensures ParseTimeSlots(doc).Err? <==>
      exists p :: p in Elements(doc, []) && Matches(p) && p.element.href.None?
  {
    SelectDocument(doc);
    var matched := Filter(Matches, Elements(doc, []));
    if ParseTimeSlots(doc).Err? {
      var k :| 0 <= k < |Selected(doc)| && !HasHref(Selected(doc)[k]);
      assert matched[k] in matched;
    } else {
      forall p | p in Elements(doc, []) && Matches(p)
        ensures p.element.href.Some?
      {
        FilterKeeps(Matches, Elements(doc, []), p);
        var k :| 0 <= k < |matched| && matched[k] == p;
        assert Selected(doc)[k] == p.element;
      }
    }
  }

  /** A page without any `div.OPW_timesHolder` has no slots. */
  lemma NoHolderNoSlots(doc: Document)
    requires forall p :: p in Elements(doc, []) ==> !IsTimesHolder(p.element)
    ensures ParseTimeSlots(doc) == Ok([])
  {
    NoHolderSelectsNothing(doc, []);
  }

  /** A page whose anchors below a holder's inner `div` are all sold out has
      no slots. */
  lemma AllSoldOutNoSlots(doc: Document)
    requires forall p :: p in Elements(doc, []) ==>
      (p.element.tag == "a" && HasDivUnderHolder(p.ancestors) ==> SoldOutClass in p.element.classes)
    ensures ParseTimeSlots(doc) == Ok([])
  {
    SelectDocument(doc);
    FilterNone(Matches, Elements(doc, []));
  }

  lemma PaddedTimeStrips()
    ensures Strip(" 10:00 ") == "10:00"
  {
    var text := " 10:00 ";
    assert TrimsTo(text, 1, 6);
    StripUnique(text, 1, 6);
    assert text[1..6] == ['1', '0', ':', '0', '0'];
  }

  /** `<div class="OPW_timesHolder"><div><a href="/book/1">10:00</a>
      <a class="soldOut" href="/book/2">11:00</a></div></div>` yields the
      first anchor's slot only. */
  lemma SoldOutExample()
    ensures ParseTimeSlots([Element("div", {"OPW_timesHolder"}, None, [
              Element("div", {}, None, [
                Element("a", {}, Some("/book/1"), [Text(" 10:00 ", Navigable)]),
                Element("a", {"soldOut"}, Some("/book/2"), [Text("11:00", Navigable)])])])])
            == Ok([Slot("10:00", "/book/1")])
  {
    var free := Element("a", {}, Some("/book/1"), [Text(" 10:00 ", Navigable)]);
    var gone := Element("a", {"soldOut"}, Some("/book/2"), [Text("11:00", Navigable)]);
    var inner := Element("div", {}, None, [free, gone]);
    var holder := Element("div", {"OPW_timesHolder"}, None, [inner]);
    assert Select([gone], InHolderDiv) == [];
    assert [free, gone][1..] == [gone];
    assert Select([free, gone], InHolderDiv) == [free];
    assert Select([inner], InHolder) == [free];
    assert Select([holder], Outside) == [free];
    var padded := Text(" 10:00 ", Navigable);
    assert [padded][1..] == [];
    assert TextOf(padded) == " 10:00 ";
    assert TextOfAll([padded]) == TextOf(padded) + TextOfAll([]);
    assert TextOf(free) == " 10:00 ";
    PaddedTimeStrips();
    assert [free][1..] == [];
    assert SlotsOf([free]) == Ok([Slot("10:00", "/book/1")] + []);
    assert [Slot("10:00", "/book/1")] + [] == [Slot("10:00", "/book/1")];
    assert ParseTimeSlots([holder]) == Ok([Slot("10:00", "/book/1")]);
  }
}
