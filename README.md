# Contig scaffolder: a verified model

The scaffolder joins assembled contigs into longer scaffolds. Its evidence is
long reads aligned against the contigs. Alignment records come grouped by read.
Within one read, every pair of alignments is classified by three threshold
tests:

- end-to-start: the end of one contig runs into the start of another;
- end-to-end;
- start-to-start.

Each accepted pair is one vote in the table of its kind. The (kind, contig
pair) entries of the three tables become candidate joins. Candidates are ranked
by vote count, highest first, then by left id, then by right id.

A greedy loop then walks the ranked candidates:

- It skips a candidate whose two contigs already share a scaffold.
- It turns each scaffold over so that the candidate's contig reads forward.
- It checks that the contig sides the candidate joins are still free, and uses
  them up.
- It appends the right scaffold to the left one, and drops the right scaffold
  from the active set. Before that, an end-to-end join turns the right scaffold
  over once more, and a start-to-start join turns the left one over once more.
- It stops as soon as one scaffold is left.

A scaffold is spelled by concatenating its contigs in order. A reversed
contig contributes its reverse complement.

The Dafny modules follow the program's files:

| module | file | contents |
|---|---|---|
| `SeqUtil` | (library) | `std::reverse` as a function and an in-place swap loop, duplicate-freedom |
| `Contigs` | contig.h, contig.cpp | class `Contig`; the reverse complement and its algebra |
| `Scaffolds` | scaffold.h, scaffold.cpp | class `Scaffold` (`Merge`, `Reverse`, `GetMerged`) and what they spell |
| `Overlaps` | main.cpp:14-16, 30-36, 77-140 | the alignment record, the thresholds and the three classifiers |
| `Votes` | main.cpp:46, 183-210 | the vote tables, a reference list of all votes, and the counting loops of `rate_overlaps` |
| `Ranking` | main.cpp:48-68, 212-221 | `joint_overlap`, `cmp`, the candidate lists and the sort |
| `Builder` | main.cpp:70-74, 161-181, 224-263 | class `Scaffolder`: the registries, the partition invariant and the greedy loop |
| `Wrappers` | (library) | `Option` |

Contigs and scaffolds are heap objects shared by reference, as the C++ pointers
are. Flag changes made through a scaffold are therefore visible through the
contig registry.

The greedy loop is proved against an invariant, `Builder.Scaffolder.Valid`:

- every registered contig is listed by exactly one active scaffold, the one its
  `scaffold_id` names in `id_to_scaffold`;
- no active scaffold lists a contig twice;
- every still-free side of a contig faces outward, so only the first and the
  last contig of a scaffold can have one.

The last point makes "the joined contigs end up next to each other" provable.

## Model

| member | source | states |
|---|---|---|
| SeqUtil.Reversed | scaffold.cpp:27 | the reversal has the same length and multiset; position i holds element n-1-i |
| SeqUtil.Reverse | contig.cpp:41 | the in-place swap loop of `std::reverse` yields exactly the reversed sequence |
| SeqUtil.ReversedTwice | scaffold.cpp:26-31 | reversing twice gives back the sequence |
| SeqUtil.ReversedAppend | contig.cpp:33-44 | reversing a concatenation concatenates the reversed parts in swapped order |
| SeqUtil.DistinctPermutation | main.cpp:221 | a permutation of a duplicate-free list is duplicate-free |
| SeqUtil.DistinctConcat | scaffold.cpp:23 | two duplicate-free lists with no common element concatenate to a duplicate-free list |
| Contigs.Partner | contig.cpp:36-39 | the partner of a nucleotide (A-T, C-G) is a nucleotide different from it |
| Contigs.PartnerTwice | contig.cpp:36-39 | taking the partner twice gives back the nucleotide |
| Contigs.ComplementedAppend | contig.cpp:35-40 | complementing letter by letter distributes over concatenation |
| Contigs.ComplementedLength | contig.cpp:35-40 | the complemented string has one letter per A/C/G/T of the data; other letters are dropped |
| Contigs.ComplementedIsDna | contig.cpp:35-40 | the complemented string consists of nucleotides only |
| Contigs.ComplementedAt | contig.cpp:35-40 | on nucleotide data the complement keeps the length, and position i is the partner of data[i] |
| Contigs.ReverseComplement | contig.cpp:33-44 | `get_reverse_complement` as a function of the data; its properties are stated by the `ReverseComplement…` lemmas below and its loop by `Contig.GetReverseComplement` |
| Contigs.ReverseComplementLength | contig.cpp:33-44 | the reverse complement consists of nucleotides only, and its length is the number of nucleotides in the data |
| Contigs.ReverseComplementAt | contig.cpp:33-44 | on nucleotide data, position i of the reverse complement is the partner of data[n-1-i] |
| Contigs.ReverseComplementAppend | contig.cpp:33-44 | the reverse complement of a+b is rc(b)+rc(a) |
| Contigs.ReverseComplementTwiceAt | contig.cpp:33-44 | on nucleotide data, every position of rc(rc(s)) equals that of s |
| Contigs.ReverseComplementTwice | contig.cpp:33-44 | on nucleotide data the reverse complement is an involution |
| Contigs.Contig.constructor | contig.cpp:9-15 | a new contig keeps its id and data, names itself as scaffold, is not reversed, and has both sides free |
| Contigs.Contig.SetScaffoldId | contig.cpp:17-19 | sets `scaffold_id` and changes no other field |
| Contigs.Contig.Reverse | contig.cpp:21-23 | toggles `reversed` and changes nothing else, so two calls are the identity |
| Contigs.Contig.SetStart | contig.cpp:25-27 | sets `start` and changes no other field |
| Contigs.Contig.SetEnd | contig.cpp:29-31 | sets `end` and changes no other field |
| Contigs.Contig.GetReverseComplement | contig.cpp:33-44 | the complement-then-reverse loop returns the reverse complement of the data, without changing the contig |
| Scaffolds.Flip | scaffold.cpp:26-31 | reading a chain from the other side: position i is the toggled entry n-1-i |
| Scaffolds.Layout | scaffold.cpp:33-43 | the (data, reversed) state of each listed contig, position by position |
| Scaffolds.Assemble | scaffold.cpp:33-43 | what `get_merged` spells for a chain; `AssembleAppend`, `AssembleFlip` and `Scaffold.GetMerged` state its properties |
| Scaffolds.FlipTwice | scaffold.cpp:26-31 | flipping a chain twice gives back the chain |
| Scaffolds.AssembleAppend | scaffold.cpp:33-43 | the spelling of a concatenated chain is the concatenation of the spellings |
| Scaffolds.AssembleFlip | scaffold.cpp:26-43 | on nucleotide data, the flipped chain spells the reverse complement of the chain |
| Scaffolds.DistinctFlipped | scaffold.cpp:28-30 | in a duplicate-free list, exactly the members are toggled an odd number of times |
| Scaffolds.FlippedParity | scaffold.cpp:28-30 | whether a contig ends up toggled depends only on how often it is listed |
| Scaffolds.ReverseTwiceRestores | scaffold.cpp:26-31 | two calls of `reverse` restore the list and leave every contig's toggle parity unchanged, so every flag is restored |
| Scaffolds.ToggleAll | scaffold.cpp:28-30 | the toggle loop flips each contig once per listing, so each member of a duplicate-free list exactly once |
| Scaffolds.ReverseSpellsReverseComplement | scaffold.cpp:26-43 | after `reverse` of a duplicate-free scaffold of nucleotide contigs, `get_merged` spells the reverse complement of what it spelled before |
| Scaffolds.Scaffold.constructor | scaffold.cpp:10-13 | the new scaffold lists exactly the contig and takes its id |
| Scaffolds.Scaffold.Merge | scaffold.cpp:19-24 | appends the other list in order; relabels exactly every contig of the other scaffold; leaves the other list and every other label unchanged |
| Scaffolds.Scaffold.Reverse | scaffold.cpp:26-31 | reverses the list and toggles each member's flag by its listing parity (exactly once when duplicate-free) |
| Scaffolds.Scaffold.GetMerged | scaffold.cpp:33-43 | returns the in-order concatenation of each contig's data or reverse complement, and changes no state |
| Overlaps.Divide | main.cpp:89-95 | `(double) n / d` without rounding: the exact quotient for d != 0; otherwise NaN or a signed infinity by the sign of n |
| Overlaps.RatioTestsMatchDivision | main.cpp:89-137 | each cross-multiplied ratio test agrees with the IEEE comparison of the quotient, including division by zero |
| Overlaps.OverlapsEndStart | main.cpp:77-98 | `check_overlaps_end_start`, each early return one negated conjunct; `EndStartMatchesDivision`, `ClassifierGuards` and `ClassifiersUseContigEnds` state its properties |
| Overlaps.EndStartMatchesDivision | main.cpp:77-98 | the end-to-start classifier accepts exactly when every test the source writes on `(double)` quotients passes, division by a zero length included |
| Overlaps.OverlapsEndEnd | main.cpp:100-120 | `check_overlaps_end_end`; `EndEndMatchesDivision`, `ClassifierGuards`, `SymmetricClassifiers` and `ClassifiersUseContigEnds` state its properties |
| Overlaps.EndEndMatchesDivision | main.cpp:100-120 | the end-to-end classifier accepts exactly when every test the source writes on `(double)` quotients passes, division by a zero length included |
| Overlaps.OverlapsStartStart | main.cpp:122-140 | `check_overlaps_start_start`; `StartStartMatchesDivision`, `ClassifierGuards`, `SymmetricClassifiers` and `ClassifiersUseContigEnds` state its properties |
| Overlaps.StartStartMatchesDivision | main.cpp:122-140 | the start-to-start classifier accepts exactly when every test the source writes on `(double)` quotients passes, division by a zero length included |
| Overlaps.ClassifierGuards | main.cpp:77-124 | no classifier accepts two alignments on one contig; end-to-start needs equal strands, the other two need different strands |
| Overlaps.SymmetricClassifiers | main.cpp:100-140 | with equal read lengths, end-to-end and start-to-start ignore the order of their arguments |
| Overlaps.ClassifiersUseContigEnds | main.cpp:89-132 | with positive contig lengths, each classifier accepts only alignments reaching near the contig sides it joins |
| Votes.Classify | main.cpp:194-205 | first match wins: an end-to-start vote comes from the first order that matches, an end-to-end vote means neither end-to-start order matched, a start-to-start vote means none of the other three did; each vote names the pair in the order of the test that accepted |
| Votes.Bumped | main.cpp:195-204 | `votes[key] += 1` on a `std::map`: a missing key is added with count 1, a present one goes up by one, and every other entry is kept |
| Votes.ClassifyVotes | main.cpp:194-205 | the first-match classification votes iff some classifier accepts the pair (end-to-start in either order); the vote names the two different contigs, in pair order except for the reversed end-to-start |
| Votes.TallyCounts | main.cpp:195-204 | after `+= 1` per vote from empty tables, a key is present iff it got a vote, and then holds its exact vote count |
| Votes.PairVotesMembers | main.cpp:186-210 | the votes cast are exactly the classifications of pairs inside one run of equal read id; each joins two different contigs aligned by one read |
| Votes.CastVoteJoinsPair | main.cpp:188-205 | a cast vote joins the two different contigs of two alignments of one read |
| Votes.RowVotesBound | main.cpp:193-205 | one row casts at most one vote per later partner |
| Votes.PrefixVotesBound | main.cpp:192-206 | the pairs whose first alignment lies in a prefix cast at most one vote each |
| Votes.PairVotesBound | main.cpp:192-206 | at most one vote across all three tables per unordered pair of alignments |
| Votes.TallyPair | main.cpp:194-205 | tallying a pair's vote is recording its classification |
| Votes.RowTallyIsTally | main.cpp:193-206 | folding a row of pairs into the tables is tallying that row's votes |
| Votes.PrefixTallyIsTally | main.cpp:192-207 | folding every pair of a prefix into the tables is tallying its votes |
| Votes.RowStopsAtRunEnd | main.cpp:188-193 | partners past the end of the run never change the tables |
| Votes.RatePair | main.cpp:194-205 | one pass of the innermost loop records exactly the pair's classification |
| Votes.RateRow | main.cpp:193-206 | the innermost loop adds the row of `s[j]` to the tables |
| Votes.RateRun | main.cpp:192-207 | the two inner loops add every pair of one run |
| Votes.CountVotes | main.cpp:183-210 | the run-grouping loop with `group_start` produces exactly the tally of all in-run pair votes |
| Ranking.StrLess | main.cpp:66-67 | `std::string`'s `<`; `StrLessIsLexLess` and the four order lemmas below state its properties |
| Ranking.StrLessIsLexLess | main.cpp:66-67 | the recursive comparison is lexicographic order as usually defined: a proper prefix, or the smaller letter at the first difference |
| Ranking.StrLessIrreflexive | main.cpp:66-67 | `std::string`'s `<` is irreflexive |
| Ranking.StrLessAsymmetric | main.cpp:66-67 | `std::string`'s `<` is asymmetric |
| Ranking.StrLessTransitive | main.cpp:66-67 | `std::string`'s `<` is transitive |
| Ranking.StrLessTotal | main.cpp:66-67 | different strings are ordered one way or the other |
| Ranking.Cmp | main.cpp:64-68 | `cmp`: more votes first, then the left id, then the right id; `CmpAsymmetric`, `CmpTotal` and `NotAfterTransitive` state its properties |
| Ranking.CmpTotal | main.cpp:64-68 | of two candidates one ranks first exactly when they differ in vote count or in either id |
| Ranking.CmpAsymmetric | main.cpp:64-68 | `cmp` is asymmetric |
| Ranking.NotAfterTransitive | main.cpp:64-68 | "does not rank after" under `cmp` is transitive, so `cmp` is a strict weak order |
| Ranking.SortedRanks | main.cpp:221 | in a sorted list no candidate ranks before an earlier one |
| Ranking.CandidateOf | main.cpp:54-61 | the `joint_overlap` constructor for a key of the table its type names; `TalliedCandidates` and `AppendStep` state what the candidates carry |
| Ranking.TalliedCandidates | main.cpp:54-61 | candidates of tallied tables are exactly the (kind, pair) combinations that got votes, each carrying its count, which is at least 1 |
| Ranking.AppendStep | main.cpp:212-213 | appending the candidate of an unvisited key keeps the list one candidate per visited key |
| Ranking.AppendedMembers | main.cpp:212-219 | once all keys are visited, the list holds the old entries plus exactly one candidate per key |
| Ranking.AppendCandidates | main.cpp:212-219 | the loop over one table appends exactly its candidates, one per key; the list stays duplicate-free |
| Ranking.SwapDown | main.cpp:221 | exchanging an out-of-order pair moves the insertion point down and keeps the elements |
| Ranking.FinishInsert | main.cpp:221 | an insertion that stops in order leaves the prefix sorted |
| Ranking.InsertLast | main.cpp:221 | one insertion step extends the sorted prefix by one element in place, as a permutation |
| Ranking.SortCandidates | main.cpp:221 | the in-place sort leaves the array in `cmp` order, as a permutation of its contents |
| Ranking.JointOverlaps | main.cpp:212-221 | the ranked list is sorted, free of duplicates, and holds exactly the candidates of the three tables |
| Builder.NamesListed | main.cpp:168-179 | a name is read iff some record carries it |
| Builder.Scaffolder.constructor | main.cpp:70-74 | the registries start empty, and the invariant holds |
| Builder.Scaffolder.AddContig | main.cpp:172-179 | a new contig, forward and with both sides free, founds a fresh active scaffold listing just it; both registries gain exactly the new name and keep every old entry; the invariant is kept |
| Builder.Scaffolder.Register | main.cpp:176-179 | inserting the new scaffold and the two registry entries keeps the invariant |
| Builder.Scaffolder.ReadRecord | main.cpp:168-180 | one record adds a fresh forward contig with both sides free, under its name with its data, and one fresh scaffold; old entries and scaffolds are kept |
| Builder.Scaffolder.ReadContigs | main.cpp:161-181 | every record is registered with its data as a fresh forward contig with both sides free, founding a fresh scaffold; old registry entries and scaffolds are kept; only fresh objects are added; the invariant is kept |
| Builder.Scaffolder.Covered | main.cpp:228-232 | the scaffold that `id_to_scaffold[c->get_scaffold_id()]` finds is active and lists c |
| Builder.Scaffolder.Partition | main.cpp:231-234 | two active scaffolds listing the same contig are one scaffold, so each contig is in exactly one |
| Builder.Scaffolder.Separate | main.cpp:231-232 | a contig listed by an active scaffold is registered and names that scaffold |
| Builder.Scaffolder.Apart | main.cpp:231-234 | two different active scaffolds share no contig, so turning one over leaves the other's contigs alone |
| Builder.Scaffolder.Orient | main.cpp:236-240 | turning an active scaffold over reverses its list, toggles each member once, and keeps the invariant |
| Builder.Scaffolder.Join | main.cpp:258-259 | `merge` then `erase`: the left list becomes both lists, the right scaffold leaves the active set, and the invariant is kept |
| Builder.Scaffolder.Release | main.cpp:243-254 | clears exactly the flags the merge kind uses and keeps the invariant |
| Builder.Scaffolder.Seam | main.cpp:242-259 | the final merge of a pair whose contigs face each other: the flags of the kind cleared, the left list followed by the right one, the right scaffold dropped |
| Builder.Scaffolder.JoinEndEnd | main.cpp:246-250 | type 1: both ends cleared, the left list followed by the reversed right list; every right member toggled, every left member kept |
| Builder.Scaffolder.JoinStartStart | main.cpp:251-255 | type 2: both starts cleared, the reversed left list followed by the right list; every left member toggled, every right member kept |
| Builder.Scaffolder.TryJoin | main.cpp:242-259 | merges iff the sides the kind joins are both free; on success exactly those flags are cleared, the two contigs are adjacent and facing, and the merged list is l+r, l+reversed(r) or reversed(l)+r by kind, with the turned scaffold's members toggled; on failure no list and no flag changes |
| Builder.Scaffolder.Align | main.cpp:236-237 | turns the scaffold over exactly when the contig is reversed: the list is reversed and every member toggled iff so, after which the contig reads forward |
| Builder.Scaffolder.AlignBoth | main.cpp:236-240 | both flips: both contigs read forward, each list reversed and its members toggled iff its contig was reversed, and no start/end flag changes |
| Builder.Scaffolder.Attempt | main.cpp:236-259 | flips and then the merge test: merges iff the joined sides were free; the merged list is the kind's join of the two aligned lists; a failed test still flips, leaving both aligned lists; each member's toggle is stated for both outcomes |
| Builder.Scaffolder.Pass | main.cpp:236-258 | `Attempt` for a candidate whose contigs are in different scaffolds, with the flags stated by id: only the two candidate contigs lose sides, exactly those the kind uses |
| Builder.Scaffolder.Step | main.cpp:228-261 | merges iff the contigs are in different scaffolds and the joined sides are free; removes only the right scaffold; clears exactly the used flags of the two contigs; leaves them adjacent and facing; the merged list is the kind's join of the two aligned lists; a failed test leaves both lists aligned; every member of both scaffolds is toggled as the flips and the kind say; other scaffolds' lists are unchanged; a shared scaffold is skipped with nothing changed |
| Builder.Scaffolder.Build | main.cpp:224-263 | after the loop no ranked candidate can still merge: its two contigs share an active scaffold, or a side it joins is taken (`SpentUpTo`); it stops early only with one scaffold left; each merge removes exactly one scaffold; flags only go from true to false; the invariant is kept |
| Builder.Scaffolder.Advance | main.cpp:227-261 | one pass of the loop: the candidate just tried, and every one tried before it, can no longer merge; a merge removes exactly one active scaffold; flags only go from true to false; the invariant is kept |
| Builder.Scaffolder.Landed | main.cpp:234-259 | after a pass the candidate tried is spent: skipped because its contigs share a scaffold, merged so that they now share one, or refused because a side it joins was taken |
| Builder.Scaffolder.Heirs | main.cpp:236-259 | after a pass, the members of every old active scaffold are still listed together by an active scaffold: the left one when it absorbed the right one, otherwise the same scaffold, whose flips reorder but keep its members |
| Builder.Scaffolder.Inherited | main.cpp:234-256 | a candidate spent before a pass stays spent: contigs that shared a scaffold still do, and a taken side is never freed again |
| Builder.Scaffolder.OneLeft | main.cpp:260-261 | with one active scaffold left, any two registered contigs share it |
| Builder.Scaffolder.OneLeftSpent | main.cpp:260-261 | after the early `break`, the candidates never tried are spent as well |

## Left out

- File and console I/O is not modelled: `read_overlaps`, the line parsing of `read_contigs` (including the `'>'` strip), `main`'s argument check and output loop, `overlap::print` and the progress messages. `ReadContigs` takes the (name, data) records already parsed.
- Floating point: the ratio tests are exact. `Overlaps.Divide` gives the IEEE result of `(double) n / d`, including NaN and the infinities, but not its rounding.
- Overlaps: every `int` field and sum is an unbounded integer, so a 32-bit overflow in `contig_start + contig_length - contig_end` is not modelled.
- Votes: the `int` vote counters are unbounded.
- `Contig::length()` and `len` are not modelled. The constructor never assigns `len`, and nothing in the core reads it.
- The `vector<Contig*> contigs` of main.cpp only stores the pointers and is not modelled.
- The iteration order of `set<Scaffold*>`, which follows pointer addresses, is not modelled: `scaffolds` is a Dafny set, and the output order is not modelled.
- Ranking.SortCandidates: insertion sort stands in for `std::sort`. Candidates tied on (votes, left, right) from different tables may come out in any order in the source; the model proves only order and permutation, which every result of `std::sort` also has.
- Builder.Scaffolder.AddContig: requires a name not yet read; the source, given a repeated name, overwrites both registry entries and leaves the earlier scaffold in the active set.
- Builder.Scaffolder.ReadContigs: requires distinct names that are not yet registered, for the same reason.
- Builder.Scaffolder.Step: requires both candidate ids to be registered. For an unknown id, `operator[]` inserts a null pointer that the source then dereferences. `Build` requires this of every candidate.
- Builder.Scaffolder.Step: states the merged scaffold's exact list, each member's orientation and the removal of the right scaffold, but does not state the new `ScaffoldOf` for each contig.
- Builder.Scaffolder.Step: does not restate what the merged scaffold spells. Its list and orientations determine it: `Scaffolds.ReverseSpellsReverseComplement` covers each turn and `Scaffolds.AssembleAppend` the concatenation.
- Builder.Scaffolder.Build: does not state which candidates merged or the final lists, only that no ranked candidate can merge afterwards, the number of merges and the flag monotonicity. `Step` states each merge exactly.
- Votes.PairVotesBound: bounds the votes by n(n-1)/2 for the whole list, not by the sum of that bound over the runs. `Votes.PairVotesMembers` separately states that only pairs inside one run vote.
- Memory: contigs and scaffolds are Dafny heap objects allocated by `new`. Deallocation and pointer arithmetic are not modelled.
