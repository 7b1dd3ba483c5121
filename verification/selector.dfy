/** The selector `div.OPW_timesHolder div a:not(.soldOut)` as Selectors Level 3
    defines it: type and class selectors, the negation pseudo-class of section
    6.6.7, and two descendant combinators (section 8.1). */
module Selector {
  import opened Dom
  import opened Seqs

  const HolderClass := "OPW_timesHolder"
  const SoldOutClass := "soldOut"

  predicate IsDiv(n: Node)
  {
    n.Element? && n.tag == "div"
  }

  /** `div.OPW_timesHolder` */
  predicate IsTimesHolder(n: Node)
  {
    IsDiv(n) && HolderClass in n.classes
  }

  /** `a:not(.soldOut)` */
  predicate IsBookable(n: Node)
  {
    n.Element? && n.tag == "a" && SoldOutClass !in n.classes
  }

  /** Some ancestor is a `div.OPW_timesHolder`. */
  predicate HasHolder(ancestors: seq<Node>)
  {
    exists i :: 0 <= i < |ancestors| && IsTimesHolder(ancestors[i])
  }

  /** Some `div` ancestor lies strictly below a `div.OPW_timesHolder` ancestor:
      the left part `div.OPW_timesHolder div` of the selector. */
  predicate HasDivUnderHolder(ancestors: seq<Node>)
  {
    exists i, j :: 0 <= i < j < |ancestors| && IsTimesHolder(ancestors[i]) && IsDiv(ancestors[j])
  }

  /** The element at this position is matched by the whole selector. */
  predicate Matches(p: Position)
  {
    IsBookable(p.element) && HasDivUnderHolder(p.ancestors)
  }

  function ElementOf(p: Position): Node
  {
    p.element
  }

  /** The reference meaning of selecting in a document: every element the
      selector matches, once each, in document order. */
  function Selected(doc: Document): seq<Node>
  {
    Map(ElementOf, Filter(Matches, Elements(doc, [])))
  }

  /** How far a walk down the tree has got through the selector's left part. */
  datatype Scope = Outside | InHolder | InHolderDiv

  /** The scope for the children of `n` when `n` is met in `scope`. */
  function Enter(scope: Scope, n: Node): Scope
  {
    match scope
    case Outside => if IsTimesHolder(n) then InHolder else Outside
    case InHolder => if IsDiv(n) then InHolderDiv else InHolder
    case InHolderDiv => InHolderDiv
  }

  /** The scope reached after entering each of `ancestors` in turn. */
  function ScopeOf(ancestors: seq<Node>): Scope
  {
    if |ancestors| == 0 then Outside
    else Enter(ScopeOf(ancestors[..|ancestors| - 1]), ancestors[|ancestors| - 1])
  }

  /** An equivalent one-pass matcher: it tracks the scope on the way down
      instead of looking back at each candidate's ancestors. */
  function Select(nodes: seq<Node>, scope: Scope): seq<Node>
    decreases nodes
  {
    if |nodes| == 0 then []
    else
      var n := nodes[0];
      (if n.Element? then
         (if scope == InHolderDiv && IsBookable(n) then [n] else [])
         + Select(n.children, Enter(scope, n))
       else [])
      + Select(nodes[1..], scope)
  }

  /** The scope state summarises the ancestors exactly: `InHolderDiv` when a
      `div` lies below a holder, `Outside` when there is no holder at all. */
  lemma {:induction false} ScopeOfMeaning(ancestors: seq<Node>)
    ensures ScopeOf(ancestors) == InHolderDiv <==> HasDivUnderHolder(ancestors)
    ensures ScopeOf(ancestors) == Outside <==> !HasHolder(ancestors)
  {
    if |ancestors| > 0 {
      var init := ancestors[..|ancestors| - 1];
      var last := ancestors[|ancestors| - 1];
      ScopeOfMeaning(init);
      assert forall i :: 0 <= i < |init| ==> init[i] == ancestors[i];
      assert HasHolder(ancestors) <==> HasHolder(init) || IsTimesHolder(last) by {
        if HasHolder(ancestors) && !IsTimesHolder(last) {
          var i :| 0 <= i < |ancestors| && IsTimesHolder(ancestors[i]);
          assert i < |init| && IsTimesHolder(init[i]);
        }
      }
      assert HasDivUnderHolder(ancestors) <==> HasDivUnderHolder(init) || (HasHolder(init) && IsDiv(last)) by {
        if HasDivUnderHolder(ancestors) {
          var i, j :| 0 <= i < j < |ancestors| && IsTimesHolder(ancestors[i]) && IsDiv(ancestors[j]);
          assert IsTimesHolder(init[i]);
          if j < |init| {
            assert IsDiv(init[j]);
          }
        }
        if HasHolder(init) && IsDiv(last) {
          var i :| 0 <= i < |init| && IsTimesHolder(init[i]);
          assert IsTimesHolder(ancestors[i]) && IsDiv(ancestors[|ancestors| - 1]);
        }
        if HasDivUnderHolder(init) {
          var i, j :| 0 <= i < j < |init| && IsTimesHolder(init[i]) && IsDiv(init[j]);
          assert IsTimesHolder(ancestors[i]) && IsDiv(ancestors[j]);
        }
      }
    }
  }

  /** The one-pass matcher selects exactly what the selector's definition
      selects, in the same order. */
  lemma {:induction false} SelectIsSelected(nodes: seq<Node>, ancestors: seq<Node>)
    ensures Select(nodes, ScopeOf(ancestors)) == Map(ElementOf, Filter(Matches, Elements(nodes, ancestors)))
    decreases nodes
  {
    if |nodes| > 0 {
      var n := nodes[0];
      var scope := ScopeOf(ancestors);
      SelectIsSelected(nodes[1..], ancestors);
      var rest := Elements(nodes[1..], ancestors);
      if n.Element? {
        var below := ancestors + [n];
        assert below[..|below| - 1] == ancestors;
        assert ScopeOf(below) == Enter(scope, n);
        SelectIsSelected(n.children, below);
        ScopeOfMeaning(ancestors);
        var here := [Position(ancestors, n)];
        var inner := Elements(n.children, below);
        assert Elements(nodes, ancestors) == here + inner + rest;
        FilterAppend(Matches, here + inner, rest);
        FilterAppend(Matches, here, inner);
        MapAppend(ElementOf, Filter(Matches, here) + Filter(Matches, inner), Filter(Matches, rest));
        MapAppend(ElementOf, Filter(Matches, here), Filter(Matches, inner));
        assert Filter(Matches, here) == if Matches(here[0]) then here else [];
      } else {
        assert Elements(nodes, ancestors) == rest;
      }
    }
  }

  /** Running the matcher over a whole document gives `Selected`. */
  lemma SelectDocument(doc: Document)
    ensures Select(doc, Outside) == Selected(doc)
  {
    assert ScopeOf([]) == Outside;
    SelectIsSelected(doc, []);
  }

  /** Without a `div.OPW_timesHolder` anywhere the walk never leaves `Outside`
      and selects nothing. */
  lemma {:induction false} NoHolderSelectsNothing(nodes: seq<Node>, ancestors: seq<Node>)
    requires forall p :: p in Elements(nodes, ancestors) ==> !IsTimesHolder(p.element)
    ensures Select(nodes, Outside) == []
    decreases nodes
  {
    if |nodes| > 0 {
      var n := nodes[0];
      var rest := Elements(nodes[1..], ancestors);
      if n.Element? {
        var here := [Position(ancestors, n)];
        var inner := Elements(n.children, ancestors + [n]);
        assert Elements(nodes, ancestors) == here + inner + rest;
        assert here[0] in Elements(nodes, ancestors);
        NoHolderSelectsNothing(n.children, ancestors + [n]);
      } else {
        assert Elements(nodes, ancestors) == rest;
      }
      NoHolderSelectsNothing(nodes[1..], ancestors);
    }
  }
}
