# MiniMe, verified models

A Dafny model of the parts of MiniMe where a mistake is hard to see by reading one function:
the M2C transcript checker and its replay protocol, the HTTP core of the preview proxy, the
Markdown and iCalendar writers with their readers, the topic store and the patches made to it,
the code editor's file views, and the schedulers and collectors around the workers. Code that
changes state step by step is modelled by methods and classes, proved against functions and
predicates; what those functions mean is proved as lemmas.

| file | models |
|---|---|
| `Basics.dfy`, `Text.dfy` | optional values; Python's `strip`, `split`, `join`, `lower`, decimal numerals |
| `Messages.dfy`, `Checker.dfy` | M2C messages; `check_transcript` as a one-pass state machine |
| `TranscriptRules.dfy`, `TranscriptRuns.dfy` | the rules without running state; independence of runs |
| `Replay.dfy` | server, wire and device as a state machine with disconnect, resume and redelivery |
| `HttpWire.dfy`, `HttpBody.dfy`, `HttpHead.dfy` | body copier and reader over short reads; head parser and printer |
| `HttpFraming.dfy`, `Csp.dfy`, `Inspector.dfy` | framing, header rewriting, policy rewriting, the injected tag |
| `HttpRelay.dfy` | the response half of the proxy: what the browser reads off the wire |
| `Markdown.dfy`, `MarkdownExact.dfy`, `Importer.dfy`, `Ics.dfy` | document writers, and readers that undo them |
| `TopicStore.dfy`, `Backlinks.dfy`, `TopicCleanup.dfy` | the topic document, joining a source, deleting one |
| `CodeView.dfy`, `CodeContext.dfy` | line windows, numbered views, the prompt budget |
| `FallbackChain.dfy`, `FixerPool.dfy`, `CommandOutput.dfy`, `Primitives.dfy` | schedulers, worker pool, reader threads, clamping |

`dafny verify dfyconfig.toml` checks everything.

## What is true, and where the slogans stop

Some promises in comments and docstrings do not hold on all inputs. The code is modelled as it
is; the exact condition is proved, with an input on which the promise fails.

- **Replay and the checker.** A transcript recorded at the device keeps every rule of the checker
  except two. A replayed message keeps its old `ts`, so times can go backwards
  (`Replay.VerbatimReplayCanGoBackInTime`); and a link cut between a hello and its answer makes the
  next hello the second in a row (`Replay.CutGreetingIsFlagged`). Nothing else goes wrong
  (`Replay.AcceptedExactly`), and which steps do it is known (`Replay.AcceptedBySteps`).
- **The fallback chain repeats accounts.** `_build_fallback_chain` says no account is picked twice,
  but `_best_match` falls back on excluded accounts. The chain takes one account of each live
  provider and then the same account again and again (`FallbackChain.ChainExactly`). From the
  registry alone one can tell when it holds no account twice: `FallbackChain.RepeatsExactly`; one
  account is enough for a repeat (`FallbackChain.SingleAccountRepeats`). For a choice that respects
  its exclusions everything promised holds (`FallbackChain.HonestChain`).
- **One bad worker loses the pool.** `_run_one_worker` says it does not, but only a SyntaxError is
  caught around the parser. The pool fails, in whatever order workers finish, if and only if some
  worker comes to grief over one of its own modules (`FixerPool.RunFixerPool`,
  `FixerPool.RaisesExactly`); one entry with `null` for its code will do
  (`FixerPool.OneEntryLosesThePool`).
- **Deletion cleanup and dangling connections.** Positions come from the read copy, which hides
  dangling connections, and are applied to the stored list. The right connections go if and only
  if nothing dangles up to the last connection of a removed topic (`TopicCleanup.CleanupExactly`);
  otherwise a wrong one may go in its place (`TopicCleanup.DanglingShiftsTheCut`). Readers see what
  they should exactly if only hidden connections and those of removed topics are stored at the
  positions cut (`TopicCleanup.CleanupSeen`); a connection between two survivors can be lost
  (`TopicCleanup.LiveConnectionIsLost`).
- **Reparenting.** Every batch keeps the tree a forest if and only if no existing topic lies below
  a new one (`Backlinks.SafeExactly`); that no other topic has a new one as its parent is enough
  (`Backlinks.SourceApart`), and one that has makes a cycle possible (`Backlinks.UnsafeJoin`).
- **Framing.** Rewritten headers frame the message as before if and only if `Connection` does not
  name the header that decides the framing (`HttpFraming.ResponseKeepsFraming`,
  `HttpFraming.RequestKeepsFraming`); a length it names is lost (`HttpFraming.NamedLengthIsLost`).
- **Policies with two `default-src`.** Browsers obey the first, the rewriter copies the last. When
  the rewrite adds the origin and nothing else: `Csp.RewriteAddsOnlyOrigin`; when not:
  `Csp.RepeatedDefaultIsWidened`.
- **Markdown.** The parser undoes the writer on the artifacts in normal form and on no others, with
  any default title (`MarkdownExact.RoundTripExactly`); content that reads as a title is taken for
  one (`MarkdownExact.TitleInContentIsLost`). Normal form allows one thing one would not expect: the
  first paragraph of a document without headings may look like a list of sources.
- **Clamping.** A clamped extent fits its box if and only if it is given no NaN
  (`Primitives.ClampFits`, `Primitives.NaNLiftsTheLimit`), and rounding can push it out by a
  hundredth (`Primitives.RoundedFits`, `Primitives.RoundingOvershoots`). `_parse_primitives` is said
  never to raise; on a decoded answer it does so exactly if one of the first four proposals, being
  of the right shape, holds an integer too large for a float, or a list or an object for its shape
  or its colour role (`Primitives.ParsePrimitives`, `Primitives.ListedShapeRaises`).

The docstring of `check_transcript` says that nothing follows a terminal state; the code refuses
only messages that carry `seq` there, lets `tool_started` repeat or follow `tool_finished`, does not
flag a `welcome` on an open connection, and reports unfinished calls for ended runs only. The model
follows the code.

## Model

| member | source | states |
|---|---|---|
| Checker.CheckTranscript | protocol/validate.py:407-510 | the report holds a problem of a kind on a line exactly if the messages before that line make it one, and lists the unfinished calls of ended runs exactly |
| Checker.CheckMessage | protocol/validate.py:430-506 | one turn of the loop: the nine pieces of state stand for the history before and after, and the verdict on the message is exact |
| Checker.CheckConnection | protocol/validate.py:442-457 | the two flags say whether a hello is unanswered and whether a connection is open; the hello grammar is judged exactly |
| Checker.CheckRun | protocol/validate.py:459-481 | starts, resume cursors and sequence numbers are judged exactly, and the cursor moves as the stream does |
| Checker.CheckCall | protocol/validate.py:483-506 | proposals, results, reports and terminal states are judged exactly |
| Checker.OpenCalls | protocol/validate.py:507-509 | the calls reported at the end are those of ended runs that were proposed and never finished |
| Checker.ReportedNothing | protocol/validate.py:407-510 | no problem is reported exactly for a transcript without violations |
| TranscriptRules.CheckerDecidesRules | protocol/validate.py:407-510 | the one-pass checker finds nothing if and only if the rules, stated over positions of the whole list, hold |
| TranscriptRules.Validate | protocol/validate.py:407-510 | running the checker decides those rules |
| TranscriptRules.CoherentIsFit | protocol/validate.py:442-506 | apart from ids, times and ends, the rules hold exactly if every message fits the ones before it |
| TranscriptRules.HellosDecide | protocol/validate.py:442-455 | where every message fits but perhaps a hello, the rules hold exactly if every hello is answered, that is if no two hellos come in a row |
| TranscriptRules.NumberRule | protocol/validate.py:473-479 | no wrong seq is found exactly if the k-th event of each run is numbered k |
| TranscriptRules.CallsRule | protocol/validate.py:487-492 | approvals, results and stream messages are clean exactly if each names a call proposed before and not finished before |
| TranscriptRules.OnceRules | protocol/validate.py:480-504 | no call is proposed twice, none is finished twice and no numbered event follows the end of its run, each exactly if the pass never finds the like |
| TranscriptRules.EndRule | protocol/validate.py:507-509 | no call is left open exactly if every call proposed in a run that ends is finished somewhere |
| TranscriptRuns.RunsDoNotInterfere | protocol/validate.py:430-510 | a transcript is accepted if and only if ids and times are in order and every run alone, with the connection messages, is accepted |
| TranscriptRuns.SameVerdict | protocol/validate.py:459-506 | a message is judged the same in the full history and in the history of its run |
| Replay.StepKeepsInv | protocol/README.md:116-130 | every step of server, wire and device keeps the invariant of the protocol; the link may be cut at any time, in the middle of a greeting too |
| Replay.DeviceHoldsPrefix | protocol/README.md:118-122 | in every reachable state the device's log of a run is a prefix of the server's stream, as long as its highest seq says |
| Replay.TranscriptsCohere | protocol/README.md:118-122 | in every reachable state the transcript at the device has distinct ids and breaks no rule but possibly those on times and hellos, the latter exactly if two hellos come in a row |
| Replay.AcceptedExactly | protocol/validate.py:438-455 | it is accepted exactly when its times are in order and no two hellos come in a row |
| Replay.AcceptedBySteps | protocol/validate.py:438-455 | which runs of the protocol are accepted: exactly those no step of which records a message stamped before the last one recorded, or dials after a greeting that was cut short |
| Replay.VerbatimReplayCanGoBackInTime | protocol/README.md:121-122 | a run of the protocol after which the times are not in order |
| Replay.CutGreetingIsFlagged | protocol/validate.py:442-446 | a run that is cut in the middle of a greeting and flagged for it |
| Replay.ResumeCatchesUp | protocol/README.md:120-122 | from every reachable state with the run attached, redelivery alone brings the device to the end of the server's stream |
| HttpBody.Reader.Read | daemon/preview_proxy.py:543-546 | a read returns any part of what is left, and nothing only at the end |
| HttpBody.CopyBody | daemon/preview_proxy.py:538-571 | for every way the stream arrives, what is written is what is consumed, and that is exactly one body; a body that is cut off or malformed is noticed |
| HttpBody.CopyChunked | daemon/preview_proxy.py:550-564 | the same for chunked bodies with their trailers |
| HttpBody.ReadBody | daemon/preview_proxy.py:574-604 | the data of one body and the stream behind it, or which of three things went wrong: too much data, a stream that ends too early, a size or a line that cannot be read |
| HttpBody.ReadingIsScan | daemon/preview_proxy.py:538-604 | the reader gets what the copier copies, unless the data is over the limit, and nothing where the copier fails |
| HttpBody.ReadChunked | daemon/preview_proxy.py:583-597 | the same for the chunked loop, where a chunk over the limit is refused before its data is asked for |
| HttpBody.ScanIsGrammar | daemon/preview_proxy.py:550-564 | the bytes taken are exactly a chunked body of the grammar (section 7.1 of RFC 9112) |
| HttpBody.OneBodyOnly | daemon/preview_proxy.py:550-564 | a stream begins with at most one chunked body |
| HttpBody.ScanIgnoresRest | daemon/preview_proxy.py:550-564 | where the body ends does not depend on what follows |
| HttpBody.DecodeUndoesEncode | daemon/preview_proxy.py:583-597 | decoding undoes a chunked encoder, for every cut into non-empty pieces |
| HttpBody.HexRoundTrip | daemon/preview_proxy.py:534-535 | reading a hexadecimal size undoes printing it |
| HttpHead.ParseHead | daemon/preview_proxy.py:474-492 | the loop computes the head, or refuses, as the function on the raw bytes says |
| HttpHead.RoundTripExactly | daemon/preview_proxy.py:607-609 | parsing undoes printing on exactly the heads the parser can produce |
| HttpHead.ParsedIsOk | daemon/preview_proxy.py:474-492 | what the parser produces has token names, one-line trimmed values and a non-empty start line |
| HttpHead.ParsePrintParse | daemon/preview_proxy.py:474-492 | parse, print, parse equals parse |
| Csp.RewriteHeader | daemon/preview_proxy.py:309-351 | the two nested loops compute the rewritten header and the nonce of the function on the value |
| Csp.RewritePolicy | daemon/preview_proxy.py:330-349 | one policy: kept, widened and dropped directives in order, the added one last, the first nonce |
| Csp.RewriteTwice | daemon/preview_proxy.py:309-351 | rewriting a rewritten header changes neither result; nothing left means no nonce |
| Csp.RewriteReadsBack | daemon/preview_proxy.py:348-351 | the printed header reads as the rewritten policies |
| Csp.RewriteAllowsOrigin | daemon/preview_proxy.py:336-347 | all other directives stay verbatim and in order, no frame-ancestors is left, and the list in force for script elements (section 6.8.3 of CSP Level 3) exists as before and contains the origin |
| Csp.RewriteIsEmbeddable | daemon/preview_proxy.py:309-351 | so does every policy a browser reads in the new header |
| Csp.RewriteAddsOnlyOrigin | daemon/preview_proxy.py:342-347 | the list in force gains the origin and nothing else, exactly if the policy has script directives or its first and last default-src allow the same sources beside the origin |
| Csp.SameAllowed | daemon/preview_proxy.py:301-306 | allowing the origin makes two lists equal exactly if they name the same sources, a lone none and an origin in last place left aside |
| Csp.RepeatedDefaultIsWidened | daemon/preview_proxy.py:342-347 | a header value whose policy is widened to everything |
| Csp.AllowTwice | daemon/preview_proxy.py:301-306 | allowing an origin twice is allowing it once; it is in the list, and the nonce found stays the same |
| Csp.NonceIsFirst | daemon/preview_proxy.py:292-298 | the nonce of a directive is that of its first token carrying one, and there is none only if no token carries one |
| Csp.NonceAllIsGoverning | daemon/preview_proxy.py:326-346 | the nonce returned is the first one among the tokens of all script and default directives, policy after policy |
| HttpFraming.RewriteRequest | daemon/preview_proxy.py:354-388 | the loop computes the headers of the function |
| HttpFraming.RewriteResponse | daemon/preview_proxy.py:398-425 | the loop computes headers and nonce of the functions |
| HttpFraming.RequestValues | daemon/preview_proxy.py:354-388 | under every name: which values reach the dev server, in order |
| HttpFraming.ResponseValues | daemon/preview_proxy.py:398-425 | under every name: which values reach the browser, in order |
| HttpFraming.PlainValues | daemon/preview_proxy.py:354-425 | end-to-end headers pass untouched unless Connection names them (section 7.6.1 of RFC 9110) |
| HttpFraming.FramingKept | daemon/preview_proxy.py:514-531 | a rewrite that only drops framing headers Connection names keeps the framing exactly if the deciding one is not named |
| HttpFraming.RequestKeepsFraming | daemon/preview_proxy.py:354-388 | a forwarded request frames itself as it was read, exactly if Connection does not name the deciding header |
| HttpFraming.ResponseKeepsFraming | daemon/preview_proxy.py:398-425 | the same for a response (section 6.3 of RFC 9112) |
| HttpFraming.NamedLengthIsLost | daemon/preview_proxy.py:354-425 | headers whose length is dropped because Connection names it: the request loses its body, the response runs until the connection closes |
| HttpFraming.EditedFraming | daemon/preview_proxy.py:805-810 | the edited document is framed by its own length, whatever the original headers said |
| HttpFraming.EditedValues | daemon/preview_proxy.py:805-810 | under every name: what is left beside the new length and no-store |
| Inspector.InjectOnce | daemon/preview_proxy.py:276-289 | a document is injected at most once |
| Inspector.InjectCutOut | daemon/preview_proxy.py:276-289 | cutting the tag out gives the document back; it stands before the first end of the head, else before the first body tag, else before its end, else last |
| Inspector.Search | daemon/preview_proxy.py:284-288 | the first place a mark occurs |
| Inspector.TagLoadsScript | daemon/preview_proxy.py:267-273 | every tag names the script, so it is recognised the next time |
| HttpRelay.Answer | daemon/preview_proxy.py:711-818 | the exact outcome of answering a response head: an error page or nothing before anything is sent, the head and a first part of the body if copying breaks off, or a message from which the browser reads status, headers and exactly the data sent (or edited), with nothing left over |
| HttpRelay.ForwardedReads | daemon/preview_proxy.py:814-818 | a forwarded response parses back to the rewritten head and, framed by it, to the data the dev server sent |
| HttpRelay.RequestReads | daemon/preview_proxy.py:755-763 | the same for a request on its way to the dev server |
| HttpRelay.EditedReads | daemon/preview_proxy.py:800-813 | an edited response parses back to the edited document |
| HttpRelay.HeadEndsThere | daemon/preview_proxy.py:607-609 | the first blank line ends the printed head |
| HttpRelay.StatusSurvives | daemon/preview_proxy.py:793-794 | the printed status line carries the status received |
| HttpRelay.ResponseHeadersOk | daemon/preview_proxy.py:398-425 | rewritten headers are headers the printer can print |
| Markdown.WriteMd | backend/agents/exporter.py:214-227 | the growing list of lines comes to the text of the function |
| Markdown.RoundTrip | backend/agents/importer.py:164-234 | the parser undoes the writer on every artifact in normal form, for any default title |
| MarkdownExact.RoundTripExactly | backend/agents/importer.py:164-234 | and on no other artifact, whatever the default title |
| MarkdownExact.BadTitleNeverReturns | backend/agents/importer.py:200-234 | not even if the default title is the very title that no line of a file can give |
| MarkdownExact.CutAnywhere | backend/agents/importer.py:200-205 | a text may be cut at any blank line and parsed in two |
| MarkdownExact.TitleInContentIsLost | backend/agents/importer.py:212-218 | an artifact that does not come back |
| MarkdownExact.ParsedShape | backend/agents/importer.py:164-234 | whatever the text, titles (but for the default one) and headings come out as non-empty stripped lines, content as stripped paragraphs, refs non-empty and free of separators |
| MarkdownExact.FeedShape | backend/agents/importer.py:205-232 | a block adds no more than itself to the contents, and all of itself exactly if it lands there as text |
| Importer.Record.Append | backend/agents/importer.py:34-39 | content grows by a stripped paragraph, nothing else changes |
| Importer.Parser.Take | backend/agents/importer.py:205-232 | one block, with the open section changed in place through `current` |
| Importer.ParseMarkdown | backend/agents/importer.py:164-234 | the loop over records gives the artifact of the function, in distinct new records |
| Ics.EscapeIsTranslation | backend/agents/exporter.py:368-375 | four passes over the text equal one translation, character by character |
| Ics.UnescapeEscape | backend/agents/exporter.py:368-375 | a reader (section 3.3.11 of RFC 5545) gets every text back, and no raw line break is left |
| Ics.OrderMatters | backend/agents/exporter.py:368-375 | with the backslash last a text would be lost |
| TopicStore.Store.Patch | backend/eo/secondary_data.py:358-397 | all operations or none; an empty list is an error |
| TopicStore.ResolvedAppend | backend/eo/secondary_data.py:107-128 | reading shows the connections whose ends exist, in order, each as often as it is stored |
| TopicStore.FewerParents | backend/agents/backlink_detector.py:684-689 | cutting parents keeps a forest a forest |
| Backlinks.BuildOps | backend/agents/backlink_detector.py:181-215 | whole topics moved, then each connection on a pair not yet taken, against the document read |
| Backlinks.SafeExactly | backend/agents/backlink_detector.py:150-215 | every validated batch keeps the tree a forest if and only if no existing topic lies below a new one |
| Backlinks.UnsafeJoin | backend/agents/backlink_detector.py:150-215 | a document in which a validated batch closes a cycle |
| Backlinks.SourceApart | backend/agents/backlink_detector.py:476-493 | that holds if no other topic has a new one as its parent |
| Backlinks.UntakenIsNew | backend/agents/backlink_detector.py:562-572 | what phase two adds is on pairs of its own, even against what phase one wrote after the document was read |
| Backlinks.NewToStored | backend/agents/backlink_detector.py:203-215 | a pair missing from the read copy is missing from the stored list, dangling connections included |
| Backlinks.RunAfterSourceManager | backend/agents/backlink_detector.py:460-572 | a run by cases: nothing for ids that are no topics, the source alone, or the source among other topics; the exact document and operations in each |
| Backlinks.JoinSource | backend/agents/backlink_detector.py:476-572 | both phases with either write failing: the exact document, connections only added and unique by pair, topics only moved below existing ones, a forest as SafeExactly says, and the operations returned are what changed |
| Backlinks.JoinOwn | backend/agents/backlink_detector.py:319-365 | the same for a source alone in its workspace |
| Backlinks.SplitTopics | backend/agents/backlink_detector.py:500-523 | merges due and topics left to reconcile, exactly |
| TopicCleanup.Cleanup | backend/agents/backlink_detector.py:668-708 | the patch never fails, removes exactly the source's topics, moves their surviving children to the top level, and cuts the stored connections at the positions read |
| TopicCleanup.RemovingIsFiltering | backend/agents/backlink_detector.py:691-701 | removing positions from the back, each from the list as it is by then (section 4.2 of RFC 6902), is filtering |
| TopicCleanup.CleanupExactly | backend/agents/backlink_detector.py:691-701 | the removed topics' connections are gone exactly if nothing dangles up to the last of them, and exactly then the rest is untouched and in order |
| TopicCleanup.DanglingShiftsTheCut | backend/agents/backlink_detector.py:691-701 | a stored list from which the wrong connection is cut |
| TopicCleanup.NothingDanglesAfter | backend/agents/backlink_detector.py:668-708 | a document without dangling connections stays one |
| TopicCleanup.CleanupSeen | backend/agents/backlink_detector.py:691-701 | after the patch readers see no more connections than those they saw less those of the removed topics, and exactly these if and only if every position cut holds a connection that was hidden or belongs to a removed topic |
| TopicCleanup.LiveConnectionIsLost | backend/agents/backlink_detector.py:691-701 | a stored list from which a connection between two surviving topics is cut |
| TopicCleanup.SurvivorsHang | backend/agents/backlink_detector.py:684-689 | the survivors are a forest and name no removed topic as parent |
| CodeView.MergeWindows | backend/agents/code_editor.py:294-301 | merged windows are in order, at least a line apart, and cover the same lines |
| CodeView.RenderItems | backend/agents/code_editor.py:324-351 | a view tiles the file: rows are wanted lines, markers hide unwanted ones, rows keep to the limit, and a size cut comes only at a row that would not fit |
| CodeView.ViewAccountsForLine | backend/agents/code_editor.py:324-351 | each line is shown once or lies in exactly one marker; without a cut the shown lines are the wanted ones |
| CodeContext.RenderFile | backend/agents/code_editor.py:304-354 | the text of a view, at least as long as its rows |
| CodeContext.BuildViews | backend/agents/code_editor.py:497-530 | all rows together keep to the prompt's limit; files are left out from one point of the order on, once the budget is all but used up; every referenced path is shown, omitted or missing |
| CodeContext.ResolveScope | backend/agents/code_editor.py:274-291 | a file is in scope as a whole exactly if some reference covers it whole, else with its selections in order |
| CodeContext.Relocate | backend/agents/code_editor.py:238-260 | a selection goes where its text now stands, if that is one other place, else to the lines given, lower one first, if they are inside the file, else nowhere |
| CodeContext.ScopeWithin | backend/agents/code_editor.py:274-291 | so every range rendered lies inside its file |
| CodeContext.ExtendScope | backend/agents/code_editor.py:435-446 | rule lines are added to files in scope by line; a whole file stays whole |
| FallbackChain.BuildChain | backend/agents/generic_worker.py:710-756 | the loop builds the chain of the function, for any way of choosing an account |
| FallbackChain.HonestChain | backend/agents/generic_worker.py:717-737 | for a choice that keeps to its exclusions: no repeats, as long as asked or as there are eligible accounts, no provider again before every eligible one has come up |
| FallbackChain.BestMatchExactly | backend/eo/panel.py:585-656 | a live account outside the exclusions if there is one, otherwise always the same account, excluded or not |
| FallbackChain.RankedIsLeast | backend/eo/panel.py:650-656 | the quota cutoff makes no difference in the last step |
| FallbackChain.ChainExactly | backend/agents/generic_worker.py:739-756 | the chain is as long as asked: one account of each live provider, then the last resort |
| FallbackChain.RepeatsExactly | backend/agents/generic_worker.py:739-756 | it holds no account twice exactly if it is no longer than there are live providers, or one longer and an expert goes before the last resort at its provider: a condition on the registry |
| FallbackChain.ProviderTurn | backend/eo/panel.py:585-656 | when its provider comes up, the last resort is chosen unless it is no natural match and a natural match of the same provider has quota left |
| FallbackChain.DynamicRepeats | backend/agents/generic_worker.py:699-707 | with the length the program chooses: three live providers, or two and that expert |
| FallbackChain.SingleAccountRepeats | backend/agents/generic_worker.py:717-719 | a registry of one account gives a chain with repeats |
| FixerPool.Partition | backend/agents/fixer_pool.py:131-136 | bucket b holds the modules at every n-th position from b on |
| FixerPool.BucketsDisjoint | backend/agents/fixer_pool.py:131-136 | no module is in two buckets |
| FixerPool.BucketsEven | backend/agents/fixer_pool.py:131-136 | bucket sizes differ by at most one, and none is empty with the number of workers chosen |
| FixerPool.RunOneWorker | backend/agents/fixer_pool.py:186-263 | a worker returns the names it was given, each fixed or as it was, or raises exactly if one of them makes it |
| FixerPool.FixIsSafe | backend/agents/fixer_pool.py:144-183 | a fix is the original or what the worker answered, and never Python that does not parse |
| FixerPool.RaisesExactly | backend/agents/fixer_pool.py:166-183 | a module makes its worker raise exactly if the call did, or the entry answered counts as Python and its code is no text or makes the parser raise something other than a SyntaxError |
| FixerPool.MergeNextDestinations | backend/agents/fixer_pool.py:266-277 | the vote of the lowest worker that has one |
| FixerPool.RunFixerPool | backend/agents/fixer_pool.py:308-343 | whatever order the workers finish in: it fails exactly if a module made its worker raise, and otherwise holds every module as its worker returned it, and the next destination of the lowest voting worker |
| FixerPool.FixedIsUnique | backend/agents/fixer_pool.py:328-343 | that fixes the map, so the order makes no difference |
| FixerPool.OneEntryLosesThePool | backend/agents/fixer_pool.py:166-183 | an entry that loses the other worker's fix as well |
| CommandOutput.Thread.Take | daemon/tools.py:347-356 | a line is kept up to the cap, and the flag says that there was more |
| CommandOutput.Thread.Emit | daemon/tools.py:357-366 | what was kept is passed on, in order |
| CommandOutput.Collect | daemon/tools.py:341-399 | for every interleaving of the two threads, each stream's chunks join to the returned text, its first 200000 characters, and the flag is set exactly if one stream is longer |
| Primitives.ClampFits | backend/agents/mech_primitive_pool.py:157-166 | a clamped extent fits its box exactly if neither number is NaN, and then one that fits is left alone |
| Primitives.NaNLiftsTheLimit | backend/agents/mech_primitive_pool.py:157-166 | a NaN offset stays, and lets any size through |
| Primitives.RoundedFits | backend/agents/mech_primitive_pool.py:160-166 | rounding exceeds the box by a hundredth at most and never goes below zero or the least size; it leaves the box exactly if the size is half a hundredth or more above the whole hundredths the rounded offset leaves, a tie rounded down excepted, which in a box of whole hundredths takes two ties rounded up |
| Primitives.RoundingOvershoots | backend/agents/mech_primitive_pool.py:160-166 | every box longer than 0.505 that is not of whole hundredths holds an extent that rounding pushes out of it |
| Primitives.ShortBoxesKeep | backend/agents/mech_primitive_pool.py:160-166 | a box shorter than that holds none |
| Primitives.ParsePrimitives | backend/agents/mech_primitive_pool.py:186-212 | it raises exactly if one of the first four proposals, with offset and size, holds a number too large for a float or a list or an object for its shape or colour role; else one to four primitives: the usable ones among the first four, in order, or the template, all in the box exactly if no NaN was proposed |
| Primitives.ListedShapeRaises | backend/agents/mech_primitive_pool.py:166-171 | a proposal without any number that makes it raise |
| Primitives.ClampedInBox | backend/agents/mech_primitive_pool.py:134-183 | a primitive lies in its box, up to rounding, exactly if none of its six numbers is NaN |

## Left out

- JSON Schema validation, `$ref` resolution and fixtures: messages are well formed by their datatype, with `seq` exactly on stream events.
- The wording and the sorting of problem texts: a problem is its line and its kind.
- Expired server buffers (`run.resume` with `state`): the server keeps every stream.
- asyncio, sockets, TLS, timeouts, error pages, the WebSocket tunnel and the skipping of interim responses: a stream is a byte sequence with arbitrary short reads, and `Answer` starts at the final response head.
- Python's looser numerals (`int(x, 16)` with signs or underscores, `isdigit` on superscripts): sizes are hexadecimal digits, lengths decimal digits.
- The two bytes behind chunk data: as in the code they are copied or skipped, never compared with a line break.
- `lower()` beyond ASCII and text outside latin-1 in heads: names and tokens that matter are ASCII.
- The order in which the set of proxy origins is tried in a Referer: it is a sequence, and the results hold for each.
- Markdown files with carriage returns: reading a file in text mode turns them into line breaks, and the model starts from the text.
- Metadata of artifacts and formats written by libraries (docx, pptx, xlsx, pdf).
- Which 300 existing topics are kept: any choice of that many, of which document order is one.
- Other writers between the read and the two writes of a join: failures of the writes are modelled, foreign writes are not.
- `apply_edits` and `find_matches`: a match is some span inside the file.
- The note in the header of a file view and the marker lines are parameters; only their presence in the length matters.
- Quota snapshots: an account has a usage and may be cooling down; who computes that is not part of this model.
- Process kill, thread joins with a timeout and UTF-8 decoding: both readers reach the end of their stream and work on decoded lines.
- Decoding of model answers (fences, JSON): an answer is arbitrary decoded data, an entry its language and its code, and what `ast.parse` makes of a text is any function to parses, SyntaxError or another exception.
- Floating point: numbers are reals with infinities and NaN; rounding is any monotone function to hundredths that moves a value by at most 0.005 and leaves hundredths alone.
- Event emission, notifications and prompt texts; the sides of a part's box are taken to be numbers.
