/** A result's sections array as the merge reads it (internal/merge/sections.go, continue.go). */
module Sections {
  datatype Option<+T> = None | Some(value: T)

  /** A value, or a safety-check failure: the document is then analysed whole instead. */
  datatype Outcome<+T> = Ok(value: T) | Refused

  /** The arrays whose items an element pointer can name, beside sections. */
  datatype Member = Paragraphs | Tables | Figures | KeyValuePairs

  /** An element pointer: "/paragraphs/3" is Leaf(Paragraphs, 3), "/sections/2" is Sec(2). */
  datatype Elem = Leaf(m: Member, n: nat) | Sec(i: nat)

  datatype Span = Span(offset: nat, length: nat)

  function End(s: Span): nat { s.offset + s.length }

  /** A section's members that the merge rewrites; either may be absent. */
  datatype Section = Section(elements: Option<seq<Elem>>, spans: Option<seq<Span>>)

  function Elems(s: Section): seq<Elem> { if s.elements.Some? then s.elements.value else [] }

  function Spans(s: Section): seq<Span> { if s.spans.Some? then s.spans.value else [] }

  /** A section whose content later parts can continue. */
  predicate Extensible(s: Section) { s.elements.Some? && s.spans.Some? }

  /**
   * One part's result as measured: its sections, the root first; which of its paragraphs are
   * headings; the length of its content; and, for each member, the spans of each of its items.
   */
  datatype Part = Part(
    sections: seq<Section>, heads: set<nat>, length: nat,
    paragraphs: seq<seq<Span>>, tables: seq<seq<Span>>, figures: seq<seq<Span>>, pairs: seq<seq<Span>>)

  function Items(p: Part, m: Member): seq<seq<Span>> {
    match m
    case Paragraphs => p.paragraphs
    case Tables => p.tables
    case Figures => p.figures
    case KeyValuePairs => p.pairs
  }

  function Count(p: Part, m: Member): nat { |Items(p, m)| }

  predicate IsHeading(p: Part, e: Elem) { e.Leaf? && e.m == Paragraphs && e.n in p.heads }

  predicate Within(spans: seq<Span>, length: nat) {
    forall k :: 0 <= k < |spans| ==> End(spans[k]) <= length
  }

  function RootElems(p: Part): seq<Elem> { if p.sections == [] then [] else Elems(p.sections[0]) }

  function RootSpans(p: Part): seq<Span> { if p.sections == [] then [] else Spans(p.sections[0]) }
}
