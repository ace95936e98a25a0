# Proofs about held sessions, split layouts, fuzzy matching, instantiation and the wire

A Dafny 4.11 model of the parts of this repository that are hardest to get right, with
proofs about every run, every tree and every input of the model. `dafny verify
dfyconfig.toml` checks all of it.

## What is modelled

**Held sessions** (`Journal.dfy`, `Holders.dfy`, `HolderProcess.dfy`, `Delivery.dfy`,
`Following.dfy`). A holder process keeps a pane's terminal output in a segmented journal
with absolute offsets. The journal is a class over a directory of files; every disk
operation that can fail takes its outcome from a `Faults` value, and each method is proved
for all of them. The journal stands for a sparse map from offset to byte. The holder's
critical sections are methods proved equal to functions of a `Pane` value; a transition
system runs those against any number of daemons whose links can be cut at any frame and
whose holder can die and be revived over whatever is on disk, and delivery is proved
exactly-once over all its runs.

**Who drives a pane** (`Lease.dfy`, `AuthorityRuns.dfy`, `AuthorityHistory.dfy`). Daemons take
leases of one store, declare their incarnations to the holders of any number of panes, are
refused, displace one another, raise their leases - in two writes under the lease's lock -
or lose. Safety is proved over all runs; where it needs the lease document never to be
lost, or one holder to live on, the statement says so.

**Split layouts** (`Geometry.dfy`, `Layout.dfy`, `Tiling.dfy`, `Navigation.dfy`, `Resize.dfy`,
`Presets.dfy`). Binary split trees edited in place, laid out by clamped rounding into an
exact partition of the window's cells, from which directional navigation and resizing are
proved correct.

**Fuzzy matching** (`Align.dfy`). The alignment table with back pointers is proved optimal
against every placement of the needle.

**Instantiation** (`Plans.dfy`, `Backends.dfy`, `Instantiate.dfy`). The interpreter that
turns a layout plan into splits of a backend is a small compiler; the recording double is
its target's semantics, and the live session is proved to be what the definition says.

**Wire, keys and calls** (`Framing.dfy`, `InputFilter.dfy`, `Client.dfy`). Frame streams
that read back, a key filter that does not care where reads are cut, and a client that
executes a request at most as often as it may, under any schedule of failures.

`Basics.dfy` holds the shared types and the algebra the solver needs one step at a time.

## Where the code and its promises part

- `neighbor` documents `None` at the window edge. A split of a one-cell extent gives side `b`
  no cells and places it past the border, and moving right or down then finds it
  (`Navigation.OneCellWindow`). `None` means the border in every case, and the border means
  `None` exactly when no squeezed-out pane lies past it beside the target
  (`Navigation.NoneIffAtEdge`). `resize_leaf` agrees with `neighbor` in every case
  (`Resize.ResizesIffNeighbor`), so its window-edge comment has the same exception
  (`Resize.FailsIffAtEdge`).
- `neighbor` documents an answer independent of tree shape and traversal order. It depends on
  the order of traversal iff two panes tie for best (`Navigation.OrderMattersIffTied`); display
  order then decides, and that is the same in every tree of the same rectangles as long as
  the answers are visible panes (`Navigation.SameRectsSameAnswer`). Squeezed-out panes can be
  stacked in either order (`Navigation.TwinsDisagree`, an input in `Navigation.TreesDisagree`).
- A resize is not always undone by the opposite one, even where no bound is reached: the sums
  are rounded (`Resize.NotUndoneInSinglePrecision`). It is iff the two sums bring the ratio
  back (`Resize.ResizeUndone`), which over exact sums fails only at the bounds
  (`Resize.BackOverExactSums`) and otherwise is at most two roundings off (`Resize.BackWithin`).
- `even_chain` documents that every leaf ends with exactly `1/n`. The smallest ratio a split
  can have is 1/20, so this holds, up to rounding to whole cells, iff `n` is at most 20
  (`Presets.EvenUpToTwenty`).
- `raise_above` writes the lease document before it stores its own incarnation, and `held`
  reads without the lock. A daemon loses to its own raise iff it checks its lease between
  those two writes (`AuthorityHistory.LosesToItselfIff`, with a run in
  `AuthorityHistory.LosesToItself`). This takes a lost document: in an intact run no raise
  ever gets as far as its first write.
- `repair` lowers the offset it asks from to the end the revived holder reports. A revived
  holder writes a banner before anyone can ask, so when the journal came back short of what
  a daemon had read, the daemon never gets the new life's bytes between the reopened end and
  the lower of what it had read and what it was told. A daemon that finds the holder already
  revived by another does not ask, and passes over all it had read. The exact conditions are
  in `Following.ReturningSkips`, a run in `Following.BannerSkipped`. Nothing of an older life
  is ever given twice (`Following.GivenFromStart`).

## Model

| member | source | states |
|---|---|---|
| Journals.JournalBounds.Normalized | makimono/src/journal.rs:32-39 | the least bounds above those asked for with a segment of at least 4096 bytes that fits inside the total |
| Journals.Journal.Open | makimono/src/journal.rs:75-103 | fails iff the listing or the opening of the last file does; otherwise, whatever earlier appends did, the index is one segment per file, whole and in stream order, and the journal's invariant holds |
| Journals.Journal.SortedByStart | makimono/src/journal.rs:78-90 | one segment for every file and no other, starts strictly ascending, lengths those of the files |
| Journals.Journal.NoteLost | makimono/src/journal.rs:115-117 | after a failed append, counting its bytes as lost restores the full invariant; the end moves past them, what is readable stays |
| Journals.Journal.Append | makimono/src/journal.rs:124-151 | in every way it can go - failed before, in or after the write - the stream only grows past its old end (no written offset is written again), the readable map is the old one plus these bytes cut at the new start or unchanged, and on success the retention bound holds; within the bound nothing retained is given up, and with the last segment dropped put back the bound would be exceeded; a new segment is opened only when bytes were lost or the open one is full; after success less than a mebibyte is unsynced |
| Journals.Journal.Rotate | makimono/src/journal.rs:221-233 | the next segment starts past every lost byte; nothing readable changes; a failure changes nothing |
| Journals.Journal.Evict | makimono/src/journal.rs:235-248 | only a prefix of segments goes, each while the bound was exceeded; never the last; the loop ends with the bound met or one segment left |
| Journals.Journal.SyncIfDue | makimono/src/journal.rs:153-174 | after success fewer than a mebibyte of what was written to the open file is unsynced, none if the interval has passed |
| Journals.RotateKeeps | makimono/src/journal.rs:221-233 | a rotation keeps the layout: starts strictly increase, file byte j is stream byte start + j, nothing overlaps |
| Journals.EvictKeeps | makimono/src/journal.rs:235-248 | dropping the oldest segment keeps the layout, whether or not its file could be removed |
| Journals.WriteKeeps | makimono/src/journal.rs:140-144 | a full or torn write keeps the layout; a torn tail stays below the bytes the caller owes as lost |
| Journals.HeldMapAfterAppend | makimono/src/journal.rs:140-151 | write then evict is, on the sparse map offset to byte: add the bytes, forget everything below the new start |
| Journals.Journal.ReadFrom | makimono/src/journal.rs:176-209 | `None` iff `max` is 0 or nothing is retained at or above `from`; otherwise the first retained stretch, at its true offset, skipping no retained byte, cut short of `max` only at a segment's end |
| Journals.Journal.ReadFile | makimono/src/journal.rs:195-204 | the buffer is filled with exactly the wanted bytes however few each read hands over |
| Journals.Journal.ReadAll | makimono/src/journal.rs:211-219 | terminates with every retained byte once, in offset order, gaps skipped |
| Journals.ListingStretch | makimono/src/journal.rs:211-219 | reading on from a stretch loses nothing and strictly advances |
| Journals.HeldInRange | makimono/src/journal.rs:106-113 | every readable offset lies between the journal's start and its end |
| HolderProcess.Holder.Ingest | tamotsu/src/holder.rs:259-286 | one critical section: the pane's state becomes what `Pane.Ingest` says, journal failures counted as lost, the chunk fed to whoever is attached; within the journal bound nothing retained is given up |
| HolderProcess.Holder.Attach | tamotsu/src/holder.rs:383-437 | for every writer, declaration, failing send of the replay and failing send of `Displaced`, the pane's new state and the caller's new writer are those of `Pane.Attach`, over a complete replay; what was written is synced before it is replayed |
| HolderProcess.Holder.Replay | tamotsu/src/holder.rs:116-126 | the frames carry, in order and true to it, all the journal retains from the asked offset; a failing send leaves exactly the frames before it |
| HolderProcess.Holder.RetireFailed | tamotsu/src/holder.rs:69-86 | a failed write detaches the connection and shuts it |
| HolderProcess.Holder.RetireDisplaced | tamotsu/src/holder.rs:89-107 | a declared predecessor is shut, and told first if it is older and the send gets through; an undeclared one is left open and silent |
| HolderProcess.Holder.Reply | tamotsu/src/holder.rs:363-381 | only the connection attached under this id is written to or retired |
| HolderProcess.Holder.Teardown | tamotsu/src/holder.rs:357-360 | the end of a serving thread detaches its own connection and no other |
| HolderProcess.LeadsThen | tamotsu/src/holder.rs:116-126 | a partial replay continued by the rest of one is a complete replay |
| Holders.WhoGetsThePane | tamotsu/src/holder.rs:55-67 | a connection gets the pane iff it is not older than the authority, not undeclared beside a declared one, and its replay gets through; the authority becomes what it declared |
| Holders.WhatItReads | tamotsu/src/holder.rs:383-437 | it reads the replay, or the part that got through and the end; an older daemon reads who holds the authority and the end; a barred one nothing |
| Holders.WhatOthersRead | tamotsu/src/holder.rs:89-107 | of the others only a declared connection that was displaced reads anything: who displaced it if that daemon is newer and the news gets through, and the end |
| Holders.AsksAgain | tamotsu/src/holder.rs:383-437 | the attached connection that asks again goes on over its own stream, undisplaced, or gives the pane up if it is older or its replay is cut |
| Holders.ReplyReaches | tamotsu/src/holder.rs:363-381 | a reply reaches its own connection and no other, while it has its own stream or is attached; a failing one costs the attached connection the pane |
| Delivery.ExactlyOnce | tamotsu/src/held.rs:301-320 | in every run of ingest, dial, attach, cut, teardown, eviction, holder death and return, for every daemon: offsets handed on strictly ascend and equal the terminal's bytes there; an offset passed unseen was gone from the journal at an attach that stepped over it, or lies below where the daemon started in this life of the holder - at 0 in the first; a drained live follower is behind on nothing retained |
| Delivery.StepKeeps | tamotsu/src/holder.rs:259-437 | every step of the system keeps the delivery invariant of every follower |
| Delivery.RunKeeps | tamotsu/src/holder.rs:259-437 | the delivery invariant holds after every run |
| Delivery.IngestKeeps | tamotsu/src/holder.rs:259-286 | a chunk - kept, lost or half-failed - leaves every follower's unread frames justified |
| Delivery.ServeKeeps | tamotsu/src/holder.rs:383-437 | an attach - refused, cut short or admitted - leaves its follower owed nothing but what the journal no longer had |
| Delivery.ServeIsQuiet | tamotsu/src/holder.rs:383-437 | an attach takes no frame from any other connection, adds at most one without data, and makes none live |
| Delivery.ReceiveKeeps | tamotsu/src/held.rs:301-320 | reading one frame hands on only bytes past all before |
| Delivery.ReplayJustified | tamotsu/src/holder.rs:116-126 | a replay leaves out, from the asked offset on, only offsets gone from the journal |
| Delivery.MissedWasSteppedOver | tamotsu/src/holder.rs:409-416 | whatever a follower counts as missed was missing from the journal at some admitted attach of its own |
| Delivery.StreamOnlyGrows | tamotsu/src/holder.rs:259-286 | while one holder lives, no run changes the byte at an offset once ingested |
| Following.Follow | tamotsu/src/held.rs:301-320 | over any frames whatever - repeated, overlapping, out of order - chunks handed on ascend without overlap, and are true to the stream if the frames are |
| Following.GivenFromStart | tamotsu/src/held.rs:368-418 | in every run nothing below where a daemon started in this life is given to it, so no byte of an older life is given twice; once drained, it has been given exactly the retained bytes from there on |
| Following.ReturningSkips | tamotsu/src/held.rs:375-418 | a returning daemon misses bytes of the new life that the journal has iff the journal holds one below the offset it came back with; with nothing of that life lost or evicted, iff the journal reopened short of what it had reached and something was written before it asked for Status - or at all, if another daemon had revived the holder and it did not ask |
| Following.BannerSkipped | tamotsu/src/holder.rs:147-149 | a run in which the banner every revived holder writes first is skipped: reopened at 1, told 3, having read 3, the daemon asks from 3 |
| Leases.RaiseOutcome | makimono/src/lease.rs:67-78 | lost iff the document is newer; otherwise one above the largest of the document, the caller and the displacing incarnation |
| Leases.Lease.Take | makimono/src/lease.rs:37-48 | takes the incarnation after the recorded one and holds the store |
| Leases.Lease.RaiseAbove | makimono/src/lease.rs:67-78 | document and lease move together or not at all, whether or not the lock or the write fails; afterwards it holds iff it was raised, when the lock was had |
| Leases.Authority.Lose | tamotsu/src/authority.rs:137-151 | loss is permanent and the hook hears of it at most once |
| Leases.Authority.Holds | tamotsu/src/authority.rs:79-92 | true iff undeclared, or not lost and the lease is held; a newer document makes it lose, and is what the hook hears |
| Leases.Authority.Displaced | tamotsu/src/authority.rs:108-135 | retries iff the lease could be raised, and then holds above the displacing incarnation; otherwise the authority is lost, and the hook hears the document's incarnation if that is newer, else the holder's |
| AuthorityRuns.StepKeeps | tamotsu/src/holder.rs:55-67 | every step of any number of daemons on any number of panes keeps the authority invariant |
| AuthorityRuns.RunKeeps | tamotsu/src/holder.rs:55-67 | the authority invariant holds after every run |
| AuthorityRuns.DeclaredNeverGoesDown | tamotsu/src/holder.rs:417-434 | a declared attachment's incarnation equals the holder's authority, and over any run - document lost or not - never goes down while that holder lives |
| AuthorityRuns.HeedOnlyLoses | tamotsu/src/authority.rs:108-135 | while the document is intact every `Displaced` resolves to a loss, never to a raise |
| AuthorityRuns.DisplacedMeansLost | tamotsu/src/authority.rs:108-135 | after any run with the document intact, the next `Displaced` heeded ends its daemon's authority |
| AuthorityRuns.NoTradingBack | tamotsu/src/holder.rs:383-437 | while the document is intact and the holder lives, a daemon that lost a pane to another never drives it again |
| AuthorityRuns.LeasesAreExclusive | makimono/src/lease.rs:37-78 | while the document is intact no incarnation is handed out twice, at most one daemon holds, and who lost, lost to a newer daemon |
| AuthorityRuns.OvertakenForGood | makimono/src/lease.rs:60-65 | while the document is intact a lease once overtaken never holds again |
| AuthorityRuns.RunsOnward | tamotsu/src/authority.rs:67-69 | over any run a pane's authority never falls in one life of its holder, and a loss is never taken back |
| AuthorityRuns.DeclaredNeverLeftHanging | tamotsu/src/holder.rs:69-107 | in every run a declared connection that was served is attached or reads the end of its stream, so its daemon dials again: no displacement or failed write leaves one waiting |
| AuthorityHistory.StepDetaches | tamotsu/src/holder.rs:259-437 | a step ends an attachment iff it is that connection's own teardown, a failed write to the pane, the holder's death, or an admitted attach by another connection, declaring no less if the old one declared |
| AuthorityHistory.WhyDetached | tamotsu/src/holder.rs:357-437 | in every run, between a world where a connection is attached and a later one where it is not, such a step lies: no stale connection's end and no older daemon ever takes a pane away |
| AuthorityHistory.DisplacedIsTold | tamotsu/src/holder.rs:89-107 | a declared connection another one's attach detaches reads to its end, and that is the newcomer's incarnation if that is newer and gets through |
| AuthorityHistory.NoticeWasSent | tamotsu/src/holder.rs:89-107 | in every run a `Displaced` on its way was put there by an attach being served, on a channel that had no such notice, and the pane was left with the authority it names |
| AuthorityHistory.RoseBy | tamotsu/src/holder.rs:417-420 | an authority that came to be above a number was brought, in between, by an admitted attach declaring more than it |
| AuthorityHistory.RefusedIffNewerCame | tamotsu/src/authority.rs:108-135 | after a raise, document lost or not, the retry is refused only if a still newer daemon was admitted since the attach whose serving sent the notice that caused the raise - and, while that holder lives, iff |
| AuthorityHistory.LosesToItselfIff | makimono/src/lease.rs:60-76 | with the raise's two writes apart: a step makes a daemon lose to a document it wrote itself iff it checks its lease between them, the document still there; in a run that never lost the document there is no such moment |
| AuthorityHistory.LosesToItself | makimono/src/lease.rs:60-76 | a run in which a daemon does lose to its own raise, after the document was lost |
| Geometry.OverlapCounts | kukaku/src/geometry.rs:89-93 | the overlap of two spans is the number of cells in both |
| Layout.ToRatio | kukaku/src/layout.rs:68-74 | a ratio already legal is kept; one too small or too large becomes the smallest or largest legal one |
| Layout.WindowLayout.SplitLeaf | kukaku/src/layout.rs:280-318 | found iff the target is there; then exactly its first leaf is replaced by the new split, else nothing changes |
| Layout.WindowLayout.RemoveLeaf | kukaku/src/layout.rs:323-359 | the tree and outcome are those of the specification function `Pruned` |
| Layout.ReplacedPanes | kukaku/src/layout.rs:280-318 | a split keeps every other pane in its place in display order |
| Layout.PrunedOutcome | kukaku/src/layout.rs:323-359 | `Removed` iff the target is a leaf below the root, `WasRoot` iff it is the whole tree - never from below - and otherwise nothing changes |
| Layout.PrunedPanes | kukaku/src/layout.rs:323-359 | removal leaves the old panes minus the target in order, and no duplicates |
| Layout.SplitThenRemove | kukaku/src/layout.rs:280-359 | splitting and removing the new leaf gives the identical tree, ratios included |
| Layout.SiblingSurvives | kukaku/src/layout.rs:323-359 | removing a leaf puts its sibling, whatever subtree that is, in the place of their split, and leaves the rest of the tree as it was |
| Layout.HasSibling | kukaku/src/layout.rs:323-359 | every leaf of every duplicate-free tree but a lone one is beside such a sibling |
| Layout.SplitStaysSane | kukaku/src/layout.rs:280-318 | a split keeps the tree free of duplicates iff the new id is fresh |
| Layout.WindowLayout.Validate | kukaku/src/layout.rs:557-591 | accepts iff there is no duplicate, and otherwise names the first pane that repeats an earlier one |
| Tiling.ExtentIsNearest | kukaku/src/layout.rs:623-632 | from two cells on side `a` gets the whole number nearest to the total times the ratio, halves upwards, held within 1 and the total less 1, and no other number is that |
| Tiling.SplitLaysOut | kukaku/src/layout.rs:478-492 | a split is laid out as its two sides in two rectangles: `a` starts where the bounds do and is that long, `b` takes the rest, both as long across |
| Tiling.SidesAdjoin | kukaku/src/layout.rs:599-619 | the two sides share the bounds with nothing left over and no 16-bit coordinate wraps |
| Tiling.ComputeRects | kukaku/src/layout.rs:472-492 | returns the specification's rectangles |
| Tiling.ExactPartition | kukaku/src/layout.rs:472-492 | every cell of the bounds lies in exactly one rectangle, every other cell in none, and the areas sum to the bounds' area |
| Tiling.OneRectAPane | kukaku/src/layout.rs:472-492 | one rectangle a pane in display order, all within the bounds and 16-bit coordinates |
| Tiling.DisplayOrder | kukaku/src/layout.rs:472-492 | a pane displayed before another lies above it or to its left |
| Tiling.OwnerOf | kukaku/src/layout.rs:472-492 | each cell of the bounds has one owner and no second |
| Navigation.Neighbor | kukaku/src/layout.rs:502-552 | `None` for an unknown target; otherwise the best candidate for the target's first leaf |
| Navigation.Nearest | kukaku/src/layout.rs:509-552 | a candidate no other beats and the first such, or `None` iff there is no candidate |
| Navigation.NoneIffAtEdge | kukaku/src/layout.rs:494-552 | `None` iff the target touches the border - exactly when no squeezed-out pane hides behind that border, and a `None` always means the border |
| Navigation.OneCellWindow | kukaku/src/layout.rs:499-500 | the documented `None` at the window edge fails in a one-cell window |
| Navigation.NoneIffAtEdgeWhenVisible | kukaku/src/layout.rs:494-552 | with every pane visible, `None` iff the target touches the border |
| Navigation.NextDoor | kukaku/src/layout.rs:502-552 | away from the border the cell past the target's edge belongs to a candidate at gap 0 |
| Navigation.NeighborIsNextDoor | kukaku/src/layout.rs:494-552 | a found neighbour has gap 0 and borders the target; no other pane at gap 0 borders it along more cells, none before it in display order along as many |
| Navigation.SplitOpensThatWay | kukaku/src/layout.rs:269-318 | the pane a split adds lies next door in the direction asked, as long across, and shares the old pane's cells with it: the old pane keeps its ratio of them, to whole cells rounded on side `a` |
| Navigation.SameRectsSameAnswer | kukaku/src/layout.rs:494-552 | two duplicate-free trees that lay the same panes out in the same rectangles give the same answer, but where one answer - to the right or below, where both - is a squeezed-out pane |
| Navigation.SameAnswerWhenVisible | kukaku/src/layout.rs:498-499 | with every pane visible they always give the same answer: no tree shape matters |
| Navigation.SqueezedFirst | kukaku/src/layout.rs:478-492 | of the panes past a target's far edge the squeezed-out ones come first in display order, in every tree |
| Navigation.TwinsDisagree | kukaku/src/layout.rs:498-499 | if another pane has the very rectangle of the answer, the tree with the two exchanged has the same rectangles and the other answer |
| Navigation.TreesDisagree | kukaku/src/layout.rs:498-499 | two trees, the same rectangles in a one-cell window, two answers |
| Navigation.OrderMattersIffTied | kukaku/src/layout.rs:509-552 | the answer depends on the order in which the rectangles are scanned iff two panes tie for nearest with the longest shared edge |
| Resize.ResizeLeaf | kukaku/src/layout.rs:374-404 | for any addition of the machine, the tree and result are those of the specification, whose meaning the lemmas below state; a delta or a sum that is not finite moves nothing and still reports the divider found |
| Resize.WalkGoverning | kukaku/src/layout.rs:422-452 | finds the deepest split of the wanted orientation with the target on the required side |
| Resize.GoverningIsSplit | kukaku/src/layout.rs:410-465 | the path found leads to a split of the wanted orientation |
| Resize.ResizesIffNeighbor | kukaku/src/layout.rs:361-404 | a non-empty pane of a duplicate-free tree can be resized towards a side iff it has a neighbour there |
| Resize.FailsIffAtEdge | kukaku/src/layout.rs:375-386 | a resize fails iff the target touches the border, exactly when no squeezed-out pane hides behind it |
| Resize.DividerAtEdge | kukaku/src/layout.rs:377-386 | the divider that moves is the target's own edge on that side |
| Resize.MonotoneLayout | kukaku/src/layout.rs:478-492 | longer bounds leave no pane shorter and none different across |
| Resize.ExtentGrowsWithTotal | kukaku/src/layout.rs:623-632 | more cells never leave either side with fewer |
| Resize.ResizeMonotone | kukaku/src/layout.rs:374-404 | for a non-negative delta, and any addition that from the ratio never goes the wrong way, no pane on the target's side of the divider gets shorter, none on the other side longer, none changes across, and panes outside the governing split keep their rectangles |
| Resize.SingleIsSteady | kukaku/src/layout.rs:395-401 | single-precision addition never goes the wrong way from a single-precision ratio |
| Resize.ResizeMovesOneDivider | kukaku/src/layout.rs:374-404 | the governing ratio becomes the sum with the delta, raised towards `b` and lowered towards `a`, held within the legal range, and stays if the sum is not finite; nothing else in the tree changes |
| Resize.ResizeUndone | kukaku/src/layout.rs:361-404 | for any addition of the machine, the opposite resize leaves the tree as it was but for the governing ratio, and gives the identical tree back iff the two sums bring that ratio back |
| Resize.BackOverExactSums | kukaku/src/layout.rs:395-401 | over exact sums it comes back iff it did not run into the smallest share, or was sent from one end of its range past the other |
| Resize.BackWithin | kukaku/src/layout.rs:395-401 | with rounding it ends at most two roundings from where exact sums bring it, whatever is clamped on the way |
| Resize.NotUndoneInSinglePrecision | kukaku/src/layout.rs:395-401 | 0.06 and 0.1 there and back, in single precision: no bound is reached and the ratio ends one step short |
| Presets.FromKind | kukaku/src/layout.rs:229-267 | `None` iff empty, or `Custom` with several; otherwise the panes appear in the given order, in the arrangement the kind names |
| Presets.TiledGrid | kukaku/src/layout.rs:665-684 | as many even rows as the square root rounded up, together holding exactly the panes in order, row lengths at most one apart, longer first |
| Presets.ChainPanes | kukaku/src/layout.rs:643-661 | a chain shows the panes of its subtrees in order |
| Presets.ChainShares | kukaku/src/layout.rs:638-661 | each of up to twenty subtrees of a chain is laid out in a rectangle of its own, an even share along the chain and all of the extent across |
| Presets.GridShares | kukaku/src/layout.rs:665-684 | in a grid of up to 400 panes every row has an even share of the height and every pane an even share of its row's width |
| Presets.EvenUpToTwenty | kukaku/src/layout.rs:638-661 | a row divides evenly over every extent with a cell for each iff it has at most twenty panes; beyond, the documented 1/n fails by the ratio clamp |
| Align.AlignIndices | praca/src/index.rs:418-498 | `None` iff the needle is no subsequence; otherwise a placement in order that scores what is returned, and no placement scores more |
| Align.FillRow | praca/src/index.rs:453-475 | fills a row of scores and back pointers with the recurrence's values |
| Align.OptUpper | praca/src/index.rs:445-475 | no placement that ends at a cell scores more than the cell |
| Align.ValueCounts | praca/src/index.rs:427-442 | a placement scores a point a character, four for each that carries on, six for each after a separator and eight for one at the start |
| Align.TraceScores | praca/src/index.rs:486-497 | following the back pointers gives a placement that scores exactly what the cell says |
| Align.EmbeddedIsSubsequence | praca/src/index.rs:418-425 | a placement exists only of a subsequence |
| Align.SubsequenceEmbeds | praca/src/index.rs:418-425 | every subsequence has a placement |
| Align.WordsAreAll | praca/src/index.rs:381-393 | splitting the needle loses nothing but white space; no word is empty or has any; there is no word iff it is all white space |
| Align.SpaceParts | praca/src/index.rs:389-393 | white space parts words: what is before it and what is after it are split on their own |
| Align.OneWord | praca/src/index.rs:389-393 | a string without white space is one word |
| Align.MatchTerms | praca/src/index.rs:389-411 | `None` iff some term is no subsequence; otherwise the sum of every term's best score less the length penalty, and the union of best placements, ascending and each position once |
| Align.FuzzyIndices | praca/src/index.rs:380-411 | `None` iff some word of the needle cannot be read in the haystack - as typed if it has an upper-case letter, else in any case; otherwise the sum and positions of the words' best placements; a blank needle matches for 0 |
| Plans.ValidateInto | tear-types/src/plan.rs:211-238 | finds the first slot used twice, if any |
| Plans.BuildShape | praca/src/instantiate.rs:114-144 | the compiled tree has the plan's shape and orientations, starts with the occupant, and its other panes are new and distinct |
| Plans.SplitThenBuild | praca/src/instantiate.rs:129-142 | splitting the occupant and building both halves in place equals building the whole plan in place |
| Backends.MockBackend.NewSession | praca/src/mock_backend.rs:203-241 | one session, one window, one pane, fresh ids, and nothing else changes |
| Backends.MockBackend.NewWindow | praca/src/mock_backend.rs:264-289 | refused iff the session is unknown; otherwise one fresh window of one fresh pane |
| Backends.MockBackend.SplitPane | praca/src/mock_backend.rs:314-348 | succeeds iff not armed to fail and some window shows the origin; then exactly that window's tree is split and its focus moved |
| Backends.MockBackend.SelectPane | praca/src/mock_backend.rs:364-378 | focuses the pane where it is shown, iff it exists |
| Backends.SplitKeeps | praca/src/mock_backend.rs:314-348 | a split keeps every pane in exactly one window of its own session and all ids fresh; the new pane runs what was asked, comes next to the origin in display order and has the focus |
| Instantiate.RealizeInto | praca/src/instantiate.rs:114-144 | in place of the occupant stands the plan's tree, every further pane runs its own slot's program, slots map to panes leaf by leaf; it fails only at the first split of a failing backend, changing nothing |
| Instantiate.RealizeWindow | praca/src/instantiate.rs:152-174 | the window has the plan's shape, every pane runs its own slot's shell and args, the active slot's pane is focused, no other window changes |
| Instantiate.Validate | praca/src/definition.rs:250-267 | accepts exactly the definitions that can be instantiated, and otherwise gives the first complaint about the first bad window |
| Instantiate.Instantiate | praca/src/instantiate.rs:180-227 | refuses iff the definition is invalid, spawning nothing; fails only with the backend; otherwise the new session is the definition, window by window, opened on the first; however it ends, everything older is untouched |
| Framing.BigEndianRoundTrip | tamotsu/src/proto.rs:195-214 | big-endian bytes read back as the number, for every width it fits in |
| Framing.BigEndianOrder | tamotsu/src/proto.rs:195-214 | the most significant byte comes first |
| Framing.WireLayout | tamotsu/src/proto.rs:187-205 | a frame is the length of tag and body in four bytes, the tag, the body |
| Framing.OnlyFramesRead | tamotsu/src/proto.rs:207-222 | what reads as a frame is a frame as it is written, and none too large |
| Framing.OnlyMessagesRead | tamotsu/src/proto.rs:110-185 | what reads as a message came from a frame with one of the two tags and the body that message is written with |
| Framing.FrameRoundTrip | tamotsu/src/proto.rs:187-222 | a written frame reads back, leaving exactly what follows |
| Framing.CutFrame | tamotsu/src/proto.rs:207-222 | a frame cut anywhere is an error, never another frame |
| Framing.StreamRoundTrip | tamotsu/src/proto.rs:92-222 | any messages written back to back read back the same with nothing left; any cut yields the whole messages before it and then an error |
| Framing.ToHolderCarries | tamotsu/src/proto.rs:92-123 | every message to a holder survives the wire, given an invertible codec for control bodies |
| Framing.FromHolderCarries | tamotsu/src/proto.rs:125-185 | every message from a holder survives it too, 64-bit offsets included |
| Framing.WriteFrame | tamotsu/src/proto.rs:187-205 | refused iff too large, then nothing is written; otherwise exactly the frame of the joined parts is appended |
| Framing.ReadFrame | tamotsu/src/proto.rs:207-222 | succeeds iff a frame is at the front, and takes exactly that frame |
| Framing.WriteToHolder | tamotsu/src/proto.rs:92-108 | appends the message's frame iff it fits |
| Framing.WriteFromHolder | tamotsu/src/proto.rs:125-149 | appends the message's frame iff it fits |
| Framing.ReadFromHolder | tamotsu/src/proto.rs:151-185 | takes the next message of the stream, or fails where the stream has none |
| Framing.ReadToHolder | tamotsu/src/proto.rs:110-123 | takes the next message of the stream, or fails where the stream has none |
| InputFilters.InputFilter.Feed | tear-attach/src/input.rs:37-78 | the actions and pending prefix are those of the specification scan |
| InputFilters.EventsAsTyped | tear-attach/src/input.rs:44-76 | read as tokens - a key, or a prefix and the key after it - what is typed is ordinary tokens, all forwarded, and then the event: a detach iff the first other token is prefix and detach key, the picker iff it is a lone picker key, none iff there is none; the rest is left over |
| InputFilters.ActionsSayAll | tear-attach/src/input.rs:44-76 | carrying the actions out forwards those bytes, meets that event, and after the picker hands back the rest |
| InputFilters.ScanAppend | tear-attach/src/input.rs:37-78 | feeding two reads in turn is feeding them joined, up to the first event |
| InputFilters.CutsMakeNoDifference | tear-attach/src/input.rs:37-78 | any cutting into reads forwards the same bytes and meets the same first event |
| InputFilters.NothingMissing | tear-attach/src/input.rs:44-76 | forwarded bytes, the event's keys, the rest and a pending prefix account for everything typed, doubled prefixes made one |
| InputFilters.OnlyDoublesDropped | tear-attach/src/input.rs:54-58 | without two prefixes in a row nothing is dropped |
| Clients.Client.Exchange | tear-client/src/lib.rs:769-777 | a connection is kept iff the exchange succeeded, and then on a frame boundary, so every answer is to its own request; executed at most once; the daemon is dialled iff no connection was kept |
| Clients.Client.Call | tear-client/src/lib.rs:753-767 | under any failures a request is executed at most once, or twice if it only asks or sets something to a value; `Ok` means it was executed; the caller hears of the first exchange, or of the second iff the first lost its connection and the request is of that kind |
| Clients.Client.Rpc | tear-client/src/lib.rs:338-343 | the same, and a request that cannot be encoded is executed not at all: rejected if it is too large, a transport error otherwise |
| Clients.Client.SendKeysChunked | tear-client/src/lib.rs:819-849 | the daemon gets whole chunks in order and nothing else: all of them on success, at most one more than confirmed on `PartialInput`, at most the first otherwise |
| Clients.Client.SendKeys | tear-client/src/lib.rs:1096-1107 | what is typed is a beginning of the input, all of it on success, and within one chunk of `delivered` on `PartialInput` |
| Clients.InOrderTypesPrefix | tear-client/src/lib.rs:819-849 | chunks in order type a beginning of the input |

## Left out

- Real input and output, threads, timeouts, signals, file modes and process spawning: failures are parameters, locks are atomic steps, links are channels that can be cut.
- Crash loss: what a missing sync costs after a power failure is not modelled; a segment file always holds what was written to it.
- Segment reads that fail: `replay` treats a read error as the end of the replay; reads of retained segments succeed here.
- The directory scan of `open`: file names that do not parse are skipped before the model starts.
- 64-bit overflow of offsets, incarnations and ids: they are natural numbers, except on the wire.
- Mute-connection probes, reconnect attempts, the revival budget, tombstones and `Exited`: when a link is dropped, a holder dies or a daemon gives up is a free choice of the run.
- The message loop of `serve` beyond attach, reply and teardown: terminal writes, resizes, ending the child.
- A connection that asks to attach more than once: `HolderProcess.Holder.Attach` covers it, the runs let every dial attach once, as `handshake` does.
- Leases.Lease.RaiseAbove: states both of its writes as one change, as its caller sees them; the runs of `AuthorityRuns` take the two writes apart.
- `f32` arithmetic, `NaN` and infinities: ratios and their bounds are reals, and a share of cells is an exact product rounded half away from zero; only the sum of a resize is taken as the machine makes it, by any addition.
- Navigation.SameRectsSameAnswer: says where two trees may disagree, not which trees do; when the answer has no twin that depends on how the squeezed-out panes can be stacked against each other.
- Leaf ids: natural numbers, because the algebra only compares them.
- The floating-point square root in `tiled`: rows are the exact root rounded up, as it computes below 2^52 panes.
- 32-bit overflow of alignment scores: a score is at most 13 a character, so it needs a needle of over 160 million of them.
- Unicode: which characters are white space or upper case, and what lower case is, are parameters of `Align.FuzzyIndices`.
- `rank`, `rank_mixed`, frecency and the session index's maps: they would only add easy members.
- Nesting of the recording double's windows and panes inside sessions: they are maps by id with a session field, and its log of calls is not kept.
- Kill, rename, resize and `apply_layout` on the backend, and its read accessors.
- Per-pane `cwd`, `env`, titles and the plan's ratios: the interpreter does not apply them either, as its own notes say.
- Naming and provenance of sessions: the display name is a parameter.
- Typed CBOR bodies: any invertible codec, and trailing bytes after a control body are not examined.
- `decode_picker_keys` and the attached terminal's run loop.
- The client's handshake requests: a dial either yields a clean connection or fails; subscriptions are not modelled.
- Payloads of client requests: only `SendKeys` carries any, because the replay rule looks at the kind alone.
- Rendering, benchmarks, configuration, badges and labels.
