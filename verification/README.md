# Splitting and merging analysed documents

A Dafny model of the core of a gateway that splits a document into parts, has each part analysed, and merges the
parts' results into the one the whole document would have had. It covers

- the merge of the parts' results: which part's leading content continues which section left open by an earlier part,
  where every offset, pointer and section lands, and the order of the members of a merged object;
- the cut of a whole result into parts, the code's own inverse of the merge, and the generator of results for any set
  of pages, its own account of what a merged result should be;
- the streaming JSON walker that copies, splices and lists JSON from a reader while replacing scalars, and the lenient
  byte scanner that finds one member of a large object;
- the fair scheduler of upstream calls, the fan-out of a document's parts with its retries, halvings and re-checks,
  the hedged race of two calls, and the choice and naming of pages.

What the source changes step by step is imperative here. `Merger`, `Cutter`, `Walker`, `Scanner`, `Scheduler`,
`Fanout` and `Ring` are classes with the source's fields; `Merge`, `Plan`, `MapPages`, `Select`, `Build` and others
are loops. Each is proved against a function of its inputs or of its old state, and the lemmas say what that function
means.

`dafny verify dfyconfig.toml` checks the whole project.

## How the merge is stated

A `Part` is what the merge reads of a part's result: how long its content is, the spans of its items, and its sections,
each with optional elements and spans. A sections array is a `Tree` when some `Forest` has its elements as contents:
nothing points at the root, and every other section is held exactly once. `ShapeOf` is what the plan makes of a part's
leading content: it stands `Apart`, is `Moved` whole, opens with a `Run` of untitled items, or with a `Chain` of
untitled sections. `PlanTo(parts, j)` is the plan of the first j parts, `TableTo` the merged table grown part by part,
and `Output` the array the program writes once, at the end, from everything it planned.

Document order is a statement about leaves: `Leaves` of the merged tree against `LeavesTo`, the parts' leaves one part
after another, renumbered. `OrderlyTo` can be computed before the merge. It goes through the parts once and notes, for
each section left open, whether a leaf has come behind it (`Shut`); it holds when no part folds a leaf into a section
that is shut.

## Model

| member | source | states |
|---|---|---|
| Orderly.FoldingKeepsTheDocument | internal/merge/continue.go:228-400 | For any parts whose sections are trees: the merged sections are exactly one tree, of the root and the kept sections, and hold each leaf as often as the parts do. They are in document order if, and where pointers name items only if, no part folds a leaf into a section that a leaf has come behind. |
| Orderly.SteadyInOrder | internal/merge/continue.go:262-284 | The order condition holds whatever sections lack elements or spans, as long as no part lets the sections left open go stale. |
| Orderly.WellFormedInOrder | internal/merge/continue.go:228-284 | The order condition holds if every section but the root carries elements and spans. |
| Closing.ClosedExactly | internal/merge/continue.go:262-267 | After a part whose tree ends in a section that cannot be extended, the sections left open are those the merged tree ends in exactly when the part is not stale: its root keeps an element, or its tree does not turn off the open path above its end. |
| StaleOpen.OrderBreaks | internal/merge/continue.go:262-267 | Three parts, each a tree, that the merge accepts and whose leaves come out in another order than the parts'. |
| Acceptance.TreesMerge | internal/merge/di.go:237-247 | Parts whose sections are trees, over items and spans they have, are always merged: no written pointer is one to a section folded away. |
| Accepting.AcceptedExactly | internal/merge/di.go:214-257 | Parts whose sections are trees are merged exactly when they agree on having sections, every pointer to an item names one, the plan is not refused, and the kept sections that later parts continue have spans within their content. |
| Accepting.AcceptedNamed | internal/merge/di.go:232-234 | Trees or not, parts with a pointer to an item they have not are never merged. |
| Accepting.AcceptedSections | internal/merge/di.go:235-242 | Nor are parts in which a section that is kept points at one they have not, or at one folded away. |
| Deferred.WritingIsGrowing | internal/merge/continue.go:565-649 | For any parts: writing every section once, at the end, with all that later parts fold into it, gives the table that grows part by part. |
| Merger.Merger.MergeSections | internal/merge/di.go:24-67 | The program's plan, shifts and single write accept exactly the parts `Accepts` describes, and write exactly the grown table. |
| Merger.Merger.PlanContinuations | internal/merge/continue.go:228-270 | The loop decides for every part what the plan does: its folds, and how many of its sections and root elements are dropped. |
| Merger.Merger.ShiftParts | internal/merge/check.go:357-374 | Each part's shifts are the content and items of the parts before it, and where its kept sections start. |
| Merger.Merger.CheckSections | internal/merge/sections.go:256-319 | Refused exactly when some part has sections and one with content has none or no root span, or a root span reaches past its part's content. |
| Merger.Merger.WriteSections | internal/merge/sections.go:330-430 | The root and the kept sections are written in order, each with its folds; refused exactly when a pointer cannot be renumbered or spans do not fit. |
| Merger.Merger.WriteElements | internal/merge/continue.go:625-649 | The lists folded into one section come out one after another, each renumbered by its own part's shift. |
| Leading.FindChain | internal/merge/continue.go:332-400 | The chain of untitled sections a part opens with, each link's elements and spans. |
| Leading.FindExtent | internal/merge/continue.go:438-490 | Where the items named start and end; refused exactly when a pointer names no item. |
| Leading.FindOpenPath | internal/merge/continue.go:507-533 | The sections the part's tree ends in; none if one of them cannot be extended. |
| Leading.Content | internal/merge/continue.go:99-105 | Content goes to the deepest open section, its spans to every section from a depth down to it, and the rest is unchanged. |
| LeadLaws.RunExactly | internal/merge/continue.go:405-490 | A part continues the open sections with a run exactly when its root opens with items that are no headings, goes on to a section or heading, has a section, names items it has, and has a root span over them; it is refused if an item is missing. The run reaches exactly the root's positions from the least offset to the greatest end of its items' spans. |
| LeadLaws.RunApart | internal/merge/continue.go:405-434 | A run's spans reach no position of an item that lies wholly before or wholly behind the run's items. |
| LeadLaws.MovedExactly | internal/merge/continue.go:286-302 | A part moves whole exactly when it has no section but the root, whose elements are all items, the first no heading, behind parts that left a section open. |
| LeadLaws.ChainExactly | internal/merge/continue.go:326-400 | A part continues them with a chain of n sections exactly when its root opens with section 1 and sections 1 to n are untitled, each the first element of the one before, no deeper than the open ones, the last opening with an item or with a section that has a heading. |
| LeadLaws.RefusedExactly | internal/merge/continue.go:326-451 | The plan refuses a part exactly when the items of its run are not all there, or a section of its chain has spans that reach past its content. |
| LeadLaws.RunGoes | internal/merge/continue.go:97-105 | A run's elements go to the deepest open section, its spans to every open section, and the root keeps what is behind; a part that moves leaves the root no element. |
| LeadLaws.ChainGoes | internal/merge/continue.go:382-400 | Each section of a chain goes into the open section of its depth without its pointer to the next; one that opens with content goes to the deepest, its spans to all from its own depth down. |
| LeadLaws.RunReaches | internal/merge/continue.go:405-434 | The positions an open section covers after a run: those it covered, the run's, and the separator exactly when the spans meet on both sides of it. |
| SpanMerge.SpansCover | internal/merge/continue.go:550-563 | If in every part the sections' spans are non-empty, ascending, apart and within the content, and cover those of the sections below them, the same holds of the merged tree, the root included, for any parts whose sections are trees. |
| SpanMerge.RootCoversExactly | internal/merge/sections.go:437-443 | A position lies in the merged root's spans exactly when it lies in a part's, shifted, or in a separator between two spans that were joined. |
| SpanSets.AppendReaches | internal/merge/continue.go:550-563 | Appended spans cover what both did, and the separator exactly when the part's first span starts its content and the last one before it ends where the part before ends. |
| CutBack.CutAndMerge | internal/realcut/cut.go:69-123 | Cutting a whole result and merging the parts, both by the programs: when the cut falls between leaves, every part holds some and the root's spans reach every part with content, the sections come back, as many, each with the elements it had. |
| CutMerged.CutMerges | internal/realcut/cut.go:472-509 | The merge accepts any parts cut so and gives back the whole's sections. |
| RoundTrip.MergeInvertsCut | internal/merge/continue.go:290-400 | Cut anywhere between leaves and merged, a pre-order tree's sections come back under the numbers they had. |
| CutAll.CutDI | internal/realcut/cut.go:392-455 | Every part is cut out of the whole: its items, its sections, its root's spans clipped to its range; a part that holds nothing has no sections. |
| CutItems.ItemsCut | internal/realcut/cut.go:578-587 | Every item of a part is in its array, each span the whole's less the part's start, of the same length. |
| CutItems.ItemsKeepTheirText | internal/realcut/cut.go:578-587 | A span within the part's range cuts the same text out of the part's content as the whole's out of the whole's. |
| CutItems.ItemsComeBack | internal/merge/check.go:357-374 | With the parts' contents one separator apart, the merge gives every item the index and the spans it had in the whole. |
| Cutter.Cutter.AssignLeaves | internal/realcut/cut.go:230-280 | Every item goes to the part of its page or of its offset, and is numbered within its part, per member. |
| CutItems.ItemGoes | internal/realcut/cut.go:230-261 | An item goes to its page's part, to none for a page off the plan; without a page to the last part whose range its first span starts in, or to the first part. |
| CutItems.ClippedIn | internal/realcut/cut.go:367-389 | A part's section covers the positions of its range that the whole's section covered. |
| Cutter.Cutter.AssignSections | internal/realcut/cut.go:301-365 | A section is in every part that holds a leaf of it or below it, and numbered there in pre-order. |
| Cutter.Cutter.Sections | internal/realcut/cut.go:472-509 | A part's table is the whole's sections it holds something of, in order, their pointers renumbered and spans clipped. |
| CutPart.CutTree | internal/realcut/cut.go:301-365 | A part cut out of a tree is a tree. |
| Continues.ChainIs | internal/merge/continue.go:332-400 | On a part cut inside a section the plan finds exactly the chain of wrappers the cut made, and whether content follows. |
| GenMerge.MergingGenerates | internal/docgen/docgen.go:186-299 | For any pages in any consecutive parts: merging what is generated for the parts, in content, pages, spans, pointers, captions, items and sections, gives what is generated for all pages at once. |
| GenMerge.GeneratedMerges | internal/merge/sections.go:256-293 | Generated parts are accepted exactly when all are blank, or none of several pages is. |
| GenBuild.Build | internal/docgen/docgen.go:186-253 | The page-by-page generator makes the model its specification describes. |
| GenTexts.BuiltStands | internal/docgen/docgen.go:186-253 | Every generated paragraph's span cuts the paragraph's own text out of the generated content, in each unit. |
| GenTexts.BuiltRight | internal/docgen/docgen.go:186-279 | Every table's two cells and caption, and every figure's text and caption, are paragraphs of those kinds on its page. |
| GenTexts.BlankPages | internal/docgen/docgen.go:143-143 | The blank pages are the multiples of the interval, if one is set; they hold nothing, the others a section. |
| GenSections.PageHolds | internal/docgen/docgen.go:145-184 | Which kinds of paragraph a page has, how often, and in which order. |
| GenSections.SectionHolds | internal/docgen/docgen.go:265-299 | A page's section holds each of its own paragraphs once, in order, and the table and the figure once each; its spans cover those, the cells and the figure's text, the separators between two in a row, and nothing else. |
| GenJoin.BuiltJoin | internal/docgen/docgen.go:186-253 | The model of two page lists in a row is the first's with the second's appended, moved past it. |
| GenRuns.RunsJoin | internal/docgen/docgen.go:268-279 | The runs of spans joined across separators, taken part by part, are what the merge's appending makes. |
| MergeOrder.Merge | internal/merge/order.go:17-61 | Succeeds exactly when some order keeps every list; the result names each name once, has every list as a subsequence, is the earliest such order, and is the insertion order when that keeps them all. |
| MergeOrder.PlacedNext | internal/merge/order.go:18-31 | In the insertion order a new name goes right behind the name before it in its list, or first of all, and the others keep their order. |
| PageMap.MapPages | internal/merge/check.go:326-354 | Passes exactly when the planned pages rise from part to part and each part's pages are 1 to k or its planned ones in order; every page then maps to the one planned there. |
| PageMap.PagesAscend | internal/merge/merge.go:140-153 | The pages of accepted parts, mapped, rise strictly from the first to the last. |
| References.SpansKeepTheirText | internal/merge/check.go:357-374 | A span within a part's content, shifted, cuts the same text out of the merged content, in each of the three units. |
| References.PointersKeepTheirItems | internal/merge/di.go:214-257 | The index written for a pointer to an item is the position at which that item is written. |
| References.SectionsKeepTheirPlace | internal/merge/di.go:237-247 | The index written for a pointer to a section is where that section, with its folds, is written. |
| References.CarriageReturnJoins | internal/merge/di.go:71-99 | Without the check for a carriage return at a part's end, lengths in text elements would not add up. |
| References.WriteContent | internal/merge/di.go:101-122 | The parts' contents in order, the separator between two. |
| References.WriteArray | internal/merge/merge.go:286-315 | The parts' items in order, and their number. |
| TextUnits.Len | internal/textunit/textunit.go:63-80 | The length of a text in code points, UTF-16 units or text elements. |
| TextUnits.Utf16RoundTrip | internal/textunit/textunit.go:63-80 | The UTF-16 the units are counted in is that of the text: read back, pairs and all, it gives the code points. |
| JsonCopy.Rewrite | internal/jsonx/rewrite.go:81-92 | For every way a reader hands out the bytes and every buffer size: taken exactly when the bytes are one JSON value within the limits and the reader fails nowhere; the output is the input with each scalar replaced by the visitor's answer and every other byte unchanged, and the visitor saw every scalar once, in order, with its path. |
| JsonCopy.ArrayItems | internal/jsonx/rewrite.go:101-109 | Taken exactly when the bytes are an array; the items come out rewritten, one comma between two, without brackets or the whitespace around items, and counted. |
| JsonCopy.CountItems | internal/jsonx/object.go:121-133 | The number of items of the array, for every chunking. |
| JsonCopy.VisitMembers | internal/jsonx/object.go:36-117 | Taken exactly when the bytes are an object; every member is listed with its name and byte range, and the chosen ones are shown to their visitors. |
| JsonReader.ReaderGives | internal/jsonx/rewrite.go:218-250 | What counts as the reader's bytes: all it hands over up to the read that ends or fails; they end well unless it failed or 101 reads in a row before that returned nothing. |
| JsonBytes.EscapesTaken | internal/jsonx/rewrite.go:523-527 | Of all bytes but u, exactly eight may follow a backslash in a string. |
| JsonBytes.HexTaken | internal/jsonx/rewrite.go:527-541 | Behind u stand exactly four hexadecimal digits of either case. |
| JsonBytes.PlainTaken | internal/jsonx/rewrite.go:498-518 | A string takes every byte as it is but control bytes, quotes and backslashes. |
| JsonBytes.SpacesTaken | internal/jsonx/rewrite.go:294-307 | Whitespace is exactly the space, the tab, the carriage return and the line feed. |
| JsonBytes.WordsTaken | internal/jsonx/rewrite.go:615-634 | Of all texts that start with a letter exactly the three words are taken. |
| JsonBytes.DigitsTaken | internal/jsonx/rewrite.go:726-790 | Of all one-byte texts exactly the ten digits are taken. |
| JsonBytes.MarksTaken | internal/jsonx/rewrite.go:726-782 | Between two digits stands exactly a digit, a point, or the mark of an exponent. |
| JsonBytes.SignsTaken | internal/jsonx/rewrite.go:726-782 | Behind that mark stands exactly a digit or a sign. |
| JsonBytes.LeadsTaken | internal/jsonx/rewrite.go:726-782 | A number may start with a minus or any digit, but no digit follows a leading zero. |
| JsonBytes.PairsTaken | internal/jsonx/rewrite.go:329-409 | Of the two-byte texts of other bytes exactly the empty array, the empty object and the empty string are taken. |
| JsonBytes.CommasTaken | internal/jsonx/rewrite.go:385-409 | Exactly a comma stands between two items. |
| JsonBytes.MembersTaken | internal/jsonx/rewrite.go:385-409 | Exactly a comma stands between two members. |
| JsonBytes.ColonsTaken | internal/jsonx/rewrite.go:413-434 | Exactly a colon stands behind a name. |
| JsonLimits.StringsTaken | internal/jsonx/rewrite.go:466-546 | Any bytes, written as a string with the usual escapes, are taken, shown whole up to 4096 bytes and else only announced, and come out as written if not replaced. |
| JsonLimits.LongNumbers | internal/jsonx/rewrite.go:577-612 | A number is taken exactly up to 4096 bytes. |
| JsonLimits.LongNames | internal/jsonx/rewrite.go:439-461 | A name is taken exactly up to 4096 bytes with its quotes. |
| JsonLimits.DepthTaken | internal/jsonx/rewrite.go:338-341 | Arrays are taken exactly up to 10000 deep. |
| JsonLimits.KindsShown | internal/jsonx/rewrite.go:577-648 | Words and numbers are shown as written, each as its kind. |
| JsonLimits.PathsShown | internal/jsonx/rewrite.go:329-434 | Items are shown under their indexes from 0, members under their names. |
| JsonRewrite.RewriteAccepts | internal/jsonx/rewrite.go:329-409 | The walk over a text succeeds exactly when the text is one JSON value within the limits, and whitespace around it. |
| JsonRewrite.RewriteSubstitutes | internal/jsonx/rewrite.go:329-409 | What the walk over a text writes is the text with the answers substituted, and what it shows is every scalar. |
| JsonRewrite.RewriteKeeps | internal/jsonx/rewrite.go:73-80 | A visitor that replaces nothing gets the text back byte for byte. |
| JsonArray.ArrayAccepts | internal/jsonx/rewrite.go:652-708 | The walk over an array's items succeeds exactly when the text is an array, and whitespace around it. |
| JsonArray.ArraySplices | internal/jsonx/rewrite.go:661-708 | Its output, what it shows, and its count are those of the items as they are written. |
| JsonArray.KeepingSplice | internal/jsonx/rewrite.go:661-708 | A visitor that replaces nothing gets the items byte for byte, one comma between two. |
| JsonMembers.ObjectAccepts | internal/jsonx/object.go:36-117 | The walk over an object's members succeeds exactly when the text is an object, and whitespace around it. |
| JsonMembers.ObjectListed | internal/jsonx/object.go:36-117 | It lists each member of the object as written, and shows each visitor its member's scalars. |
| JsonEntries.EntriesPoint | internal/jsonx/object.go:36-117 | The listing has an entry for every member, in order: its name, the bytes of its value, whether the name is escaped, and how many items an array has. |
| JsonNumber.NumbersExact | internal/jsonx/rewrite.go:726-786 | The automaton takes exactly the numbers of section 6 of RFC 8259. |
| Walker.Walker.Value | internal/jsonx/rewrite.go:329-409 | Over the refilled buffer, one value is consumed, written and shown as the walk over the whole text says, and the path is as before. |
| Walker.Walker.Read | internal/jsonx/rewrite.go:218-250 | Reading on loses no byte, and gives up only after a hundred empty reads, an error or the end. |
| Walker.Walker.TellSpilled | internal/jsonx/rewrite.go:466-483 | A string too long to hold has been written as it came, and the visitor is told of it without its text. |
| Walker.Walker.Items | internal/jsonx/rewrite.go:652-658 | The items of an array that is the whole input, over the refilled buffer. |
| Walker.Walker.Members | internal/jsonx/object.go:36-117 | The members of an object that is the whole input, over the refilled buffer. |
| JsonLoose.MemberRange | internal/jsonx/jsonx.go:177-242 | The byte scanner's loop finds the range its specification does. |
| JsonAgree.ScannersAgree | internal/jsonx/jsonx.go:81-242 | On any text the walker takes as an object, its names without escapes: the byte scanner finds a key exactly when the walker lists it, at the bytes of its first member. |
| JsonAgree.FirstMemberFound | internal/jsonx/jsonx.go:177-242 | The same of every object text within the walker's limits. |
| Overtaking.BoundedOvertaking | internal/sched/sched.go:77-213 | From any state the scheduler can be in: while a caller waits behind q of its own job, each other job is granted at most q + 1 slots, its own at most q, and no newcomer or hedge gets one. |
| Overtaking.NoStarvation | internal/sched/sched.go:173-213 | And it waits for at most (q + 1)(n + 1) grants when n other jobs are granted any. |
| SchedSpec.Reachable | internal/sched/sched.go:77-213 | In every reachable state the slots in use are the live grants and those not yet picked up, none twice and within the limit; the ring lists each waiting job once; nobody waits while a slot is free. |
| SchedSpec.CallersGoOn | internal/sched/sched.go:77-213 | In every reachable state: who can come, fetch a slot, give up; and while anyone waits some slot is held or to be fetched, so that the next turn can come. |
| SchedSpec.IdleExactly | internal/sched/sched.go:125-133 | In every reachable state a hedge has a slot exactly when one is free and no caller is queued, and then only that changes; else nothing does. |
| SchedSpec.ArriveExactly | internal/sched/sched.go:77-120 | In every reachable state a caller is granted at once exactly then, and else queued behind its own job's. |
| SchedSpec.LeavesLine | internal/sched/sched.go:200-213 | A queued caller that gives up leaves a gap and everyone else's place as it was; its job leaves the ring with its last caller. |
| Scheduler.Scheduler.Acquire | internal/sched/sched.go:77-120 | One step of the protocol: refused if the context has ended, granted exactly when a slot is free and the ring is empty, and queued otherwise. |
| Scheduler.Scheduler.Collect | internal/sched/sched.go:77-120 | A granted caller that comes for its slot holds it. |
| Scheduler.Scheduler.GiveUp | internal/sched/sched.go:77-120 | A cancelled caller is queued no longer, and a slot granted to it meanwhile is handed on. |
| Scheduler.Scheduler.TryAcquireIdle | internal/sched/sched.go:125-133 | A hedge takes a slot exactly when one is free and the ring is empty, and then one more is in use; nothing else changes. |
| Scheduler.Scheduler.Release | internal/sched/sched.go:144-195 | A slot is given back once, however often its release runs: to the first caller of the job whose turn it is, or to nobody if none waits. |
| FanRuns.RunsAreBounded | internal/engine/parts.go:142-260 | Over every run: at most 3(2n - k) + 5n attempts for n pages in k parts, an end after boundedly many steps, and no two part files of one name. |
| FanRuns.CoverageHolds | internal/engine/parts.go:264-277 | When a job that has not failed ends, its results in page order are the selected pages: the check before the merge cannot fail. |
| FanFates.AnswersDecide | internal/engine/parts.go:142-201 | Over every run, the answers a part's calls got decide where it is: tried again below three in vain, cut after three at two pages or more with nothing else possible but that it gives up, re-checked after three at one page or after a call refused for good, and then done, failed or asked again by five calls and two of the retry-once class. |
| FanFates.CutHalves | internal/pdfsplit/plan.go:48-57 | A cut puts two fresh parts in the place of one, with its pages in order, the first with the larger half. |
| FanFates.OnlyOnePageFails | internal/engine/parts.go:142-260 | A job none of whose calls is cancelled, misrouted or refused for good, whose parts neither give up nor fail to be cut, can only fail by a part of one page; larger ones are always tried, cut or done. |
| FanFates.PartsGoOn | internal/engine/parts.go:142-260 | In every state of a job each part that is not done or failed has its steps and no others, and the run goes on by any of them. |
| Fanout.Fanout.PartAttempt | internal/engine/parts.go:142-201 | What each answer makes of the part: a result, a failure, a re-check, another attempt before the third, a cut at two pages or more. |
| Fanout.Fanout.CutInTwo | internal/engine/parts.go:204-242 | A part cut in two and both halves started, as a step, also when a half cannot be written. |
| Fanout.Fanout.RecheckAttempt | internal/engine/whole.go:41-78 | What each answer makes of a re-check: a result, a failure, or another call below five and below two of the retry-once class. |
| Fanout.Fanout.Abandon | internal/engine/parts.go:142-201 | A part that gives up while it waits, as a step: the job has failed. |
| Fanout.Covered | internal/engine/parts.go:264-277 | The check before the merge passes exactly when the sorted results are the selected pages. |
| Fanout.Whole | internal/engine/whole.go:41-78 | Stops at the first answer no retry changes, at the attempt limit or at the second one in the retry-once class, and not before. |
| Hedge.Hedged | internal/engine/hedge.go:56-111 | Over every order of events: a second call exactly when the timer found a slot idle, each slot given back once; success exactly when a call succeeds, with the first success, every later one cleaned up; failure only when all started calls are back, with the last failure. |
| Hedge.RacesAre | internal/engine/hedge.go:56-111 | The orders of events there are: one call back alone, or after a timer that found no slot; or a timer that found one, and both back in either order. |
| Hedge.Ring.Delay | internal/engine/hedge.go:32-46 | Four times the median of the last 200 samples, between 5 and 30 seconds; 30 seconds before there are 20. |
| Hedge.MedianMiddle | internal/engine/hedge.go:32-46 | Half of the samples are no larger than their median and half no smaller; for an even number it is halfway between the middle two, rounded down. |
| Hedge.Ring.Add | internal/engine/hedge.go:21-27 | The circular buffer holds the last 200 samples. |
| Planning.Plan | internal/pdfsplit/plan.go:24-46 | The parts are the pages in order, as few as can be, of sizes at most one apart, and at least half of max once there are two. |
| PageList.RoundTrip | internal/pdfsplit/pages.go:19-105 | Pages written as text, read back and selected are the same pages. |
| PageList.Select | internal/pdfsplit/pages.go:64-84 | The pages the ranges name, ascending and each once, whatever the ranges' order and overlaps; refused exactly when there are none or one is out of bounds. |
| PageText.SelectionAmidBlanks | internal/pdfsplit/pages.go:39-57 | A selection reads the same with spaces and tabs around any of its numbers. |
| PageText.NumberAmidOthers | internal/pdfsplit/pages.go:39-57 | And with no other characters there. |
| PageText.NumbersInRange | internal/pdfsplit/pages.go:39-57 | Page numbers are read from 1 to the largest int of 64 bits. |
| PageText.PartNamesDiffer | internal/engine/workdir.go:72-74 | Parts with different first or last pages have different file names. |

## Findings

- Sections left open can go stale (internal/merge/continue.go:262-267). A part whose tree ends in a section without
  spans or elements has an empty open path. The comment at lines 503-506 says such a section closes everything; the
  switch at line 262 then closes the open sections only if the part's root keeps an element. When all of it was folded
  away the sections of earlier parts stay open although the merged tree no longer ends in them, and a later part can
  be folded into them, ahead of leaves that come before it. `StaleOpen.OrderBreaks` has such parts,
  `Closing.ClosedExactly` the exact condition on one part, and `Orderly.FoldingKeepsTheDocument` the exact condition on
  the order. Nothing is lost in any case: the result is one tree with every leaf.
- A generated part of several pages that are all blank is refused beside a part with sections: the line feeds between
  its pages are content, and it has no section for them (`GenMerge.GeneratedMerges`).
- `maxDepth` is said to match encoding/json (internal/jsonx/rewrite.go:60), but the items of an array and the members
  of an object are counted from their own level: `ArrayItems` and `VisitMembers` take values one level deeper than
  `Rewrite` takes them in the same text (`JsonText.Good` is asked of each item, not of the array).
- Text elements add up across a separator only because a part whose content ends in a carriage return is refused
  (`References.CarriageReturnJoins`).

## Left out

- Orderly.FoldingKeepsTheDocument: parts whose sections are no tree, which the plan and the writer treat as they come; `Deferred.WritingIsGrowing` covers them, order and tree-ness do not apply.
- Merger.Merger.MergeSections: the separator is at least one unit long, as both texts of internal/merge/separator.go are.
- CutBack.CutAndMerge: elements come back, spans are not compared: the cut clips them at page boundaries and the merge joins them only across a lone separator.
- CutAll.CutDI: the offset of an item that starts before its part, which the code writes as a negative number, is taken as 0; pages, styles, notes and markdown are not cut.
- GenMerge.MergingGenerates: the title option, geometry, and the bytes of the JSON; a figure carries its page and its text, and its id, which is written from them, is not spelt out.
- GenBuild.Build: the text of a paragraph and the places of its words are parameters.
- References.SpansKeepTheirText: text elements are a parameter with one assumption, that a line feed is an element by itself unless a carriage return precedes it (section 3.1.1 of UAX #29, rules GB3 to GB5).
- JsonCopy.Rewrite: the decoding of a name with escapes is a parameter; output errors of the writer, the pooling of walkers and the text of errors are not modelled.
- JsonCopy.ArrayItems: the number of items returned along with a failure.
- JsonLoose.MemberRange: a reader that fails, and the buffering of the bytes; the text is at hand.
- JsonAgree.ScannersAgree: the text holds nothing after the object but whitespace, as the walker wants it; the byte scanner does not look so far.
- Planning.Plan: page labels.
- FanRuns.RunsAreBounded: the attempts of a whole-document fallback after a failed merge.
- Fanout.Whole: the waits between attempts, deadlines and log lines.
- Hedge.Hedged: the hedge timer is an event that comes at any time, or never.
- Overtaking.BoundedOvertaking: each critical section is one step; the runtime's order of goroutines is any.
- The strict decoding of spans and section objects, and malformed pointers (internal/merge/continue.go:142-223, internal/merge/sections.go:124-247): sections are values here.
- `checkPageSpans` and the page collector (internal/merge/check.go:145-233): checks of each part's own pages, one branch each.
- The agreement of members between parts and figure ids (internal/merge/check.go:237-296, internal/merge/di.go:260-285).
- Read results (`CutRead`, `Read`): pages only, with no sections or spans.
- Files, PDF cutting, HTTP, configuration, metrics and stored jobs.
- The library's sorts are insertion sorts (`Lists.SortedBy`).
