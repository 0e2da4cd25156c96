# HttpArena, modelled in Dafny

HttpArena runs many small HTTP servers against the same load and publishes a
leaderboard. The servers are thin; the logic worth proving sits in a few places,
and each has a module here.

- `CacheAside`: the item endpoints that many workers run against one Postgres table
  and one Redis, as a transition system over every interleaving, with calls that are
  answered, lose their answer, or never happen, and a clock that expires entries. The
  aiohttp entry awaits its cache fill, the Bun entry does not; both are covered.
- `CertificateRotation`: a TLS certificate reloaded from two files by threads that
  check, stamp, lock, load and swap, while somebody replaces the files one at a time
  with strictly increasing write times.
- `WebSocketFrames`, `ChunkedBody`, `ResponseParsing`: the wire codecs of the validation
  scripts, section 5.2 and 5.3 of RFC 6455 and section 7.1 of RFC 9112, and the response
  parser around the latter.
- `Aggregate`, `Composite`, `LatencyScore`, `Ranking`, `BadgeIndex`: from rows to
  averages, to scores within a league, to places, to the published badge index and
  what the parity script demands of it.
- `ResultsStore`: flat arrays split into one file per framework, runs merged into the
  files, stale files purged, and the flat view rebuilt.
- `MarkdownLines`, `MarkdownLists`, `MarkdownBlocks`, `MarkdownOutput`: the converter's
  line patterns, its nested list reader, its block loop, and the strings they build.
- `TextEmbedding`: JSON inside a JavaScript literal, and a stylesheet cut into rules.
- `Basics`, `Names`, `Slugs`, `Strings`, `Markup`: what these share.

Code that works by updating state is modelled that way. The two concurrent systems
give each atomic step once as a function (`Apply`) and once as a method of a class
(`Backend`, `RotatingCertificate`) proved to do the same; runs are sequences of such
steps in any order, and the results hold for every run. Loops over lines, rows and
bytes are methods proved against functions or against predicates about their result.

Seven promises turned out to hold only under a condition, and the exact one is proved
for each, with a concrete failing input beside it. A read after a PUT is fresh, as long
as nobody writes, unless a fill of another row is pending (`FreshAfterDeleteIff`). The
certificate converges unless a rotation fell into the constructor and nothing was
written since (`ConvergenceIff`). A rank is never worsened by a filter if the row is
near the first of its rank (`RankNeverWorsensIff`), and counts the better rows if near
ties are ruled out (`RanksCountBetterIffSeparated`). A newcomer moves no fixed-rate
score if every best of the field stays the best (`NewcomerMovesNothingIff`). A migrated
array comes back if each of its items names a framework, no two share a slug, and
nothing else is filed under its key (`MigratedArrayComesBackIff`). Two merges of
disjoint runs commute if no stale file lies in the way (`DisjointRunsCommuteIff`).

Three things a reader of the source may not expect. The heading anchors of the
converter use the file-name slug, because a second `_slug` further down
`scripts/gen_leaderboard_data.py` replaces the one above the converter. The migration
removes every flat file outside its list of exceptions, also those it could not read
or had to skip rows of. And a badge's link always names the ranking it was taken from,
so a tuned entry's default badge links to the with-tuned board.

Numbers are exact reals and the logarithm is any function that is zero at one,
positive above it and never decreasing. Sorting compares strings by code point.

## Model

| member | source | states |
|---|---|---|
| CacheAside.Backend.Accept | frameworks/aiohttp/app.py:235-242 | A request enters as a task at its first await; GET and PUT only, and only under a fresh id. |
| CacheAside.Backend.CacheGetStep | frameworks/aiohttp/app.py:243-252 | A live entry answers the GET with its row; a failed or empty read goes on to the table (aiohttp), a failed one ends the request in Bun. |
| CacheAside.Backend.SelectStep | frameworks/bun/server.ts:244-249 | One read of the row; absent is 404, a failed call is an error, and Bun replies here while its fill is still to come. |
| CacheAside.Backend.CacheSetStep | frameworks/aiohttp/app.py:262-270 | The fetched row is stored with the time of the SET, unless the call never reached Redis; the reply is the fetched row either way. |
| CacheAside.Backend.UpdateStep | frameworks/aiohttp/app.py:284-293 | The row is overwritten field by field with the defaults of the endpoint; no row is 404, a lost answer leaves the write in place. |
| CacheAside.Backend.CacheDelStep | frameworks/aiohttp/app.py:294-299 | The key goes unless the call never reached Redis; aiohttp reports success regardless, Bun an error. |
| CacheAside.Backend.PostStep | frameworks/aiohttp/app.py:209-229 | An upsert of name, price and quantity that keeps the other columns of an existing row and does not touch the cache. |
| CacheAside.UpdateWritesFields | frameworks/aiohttp/app.py:284-289 | In every run, an UPDATE that reaches Postgres leaves name, price and quantity as the body has them, or Updated, 0 and 0, the other five columns and all other rows as they were, and the cache alone. |
| CacheAside.UpsertWritesFields | frameworks/aiohttp/app.py:210-219 | An upsert that does inserts the body with New Product, test, 0 and 0 for what it lacks, or overwrites name, price and quantity of the row that is there, category and the rest kept. |
| CacheAside.UninterruptedLookup | frameworks/aiohttp/app.py:240-252 | A GET up to its first answer from Redis, for each outcome of the call: an entry under 200 ms old is the reply, else the table is next or, in Bun after a failed call, the request fails. |
| CacheAside.UninterruptedMiss | frameworks/aiohttp/app.py:253-270 | From there to the end, for each outcome of both calls: 404, error, or the row as the reply and, unless the SET never happened, in the cache. |
| CacheAside.UninterruptedPut | frameworks/aiohttp/app.py:273-304 | A whole PUT, for each outcome of both calls: what is written, whether the key goes, and the reply. |
| CacheAside.UninterruptedPost | frameworks/aiohttp/app.py:202-229 | A whole POST likewise; the cache stays. |
| CacheAside.HitIsARecentSnapshot | frameworks/aiohttp/app.py:243-266 | In every run, a HIT at time t carries exactly the row the table held when its filling reader fetched it, through an unbroken entry, and t minus the time of the SET is under 200 ms. |
| CacheAside.BoundedStaleness | frameworks/aiohttp/app.py:243-266 | If fetch-to-SET takes at most D in the run, the row of a HIT was the row of the table less than 200 ms + D ago. |
| CacheAside.InterveningWriteExplained | frameworks/aiohttp/app.py:273-298 | Every write between a HIT's fetch and the HIT is an upsert, an UPDATE whose delete has not reached Redis, or an UPDATE whose delete came before the fill. |
| CacheAside.StaleHitClassified | frameworks/aiohttp/app.py:202-304 | A HIT that differs from the current row has such a write: an upsert, a pending or failed delete, or a fill that raced the UPDATE. There is no fourth cause. |
| CacheAside.ReadAfterPut | frameworks/aiohttp/app.py:273-298 | After a PUT's delete, a read gives the PUT's row or a later one unless a fill fetched before the UPDATE landed after the delete; with no further write it has the body's name, price and quantity, or their defaults, and the other columns as they were. The exact condition on the state is FreshAfterDeleteIff's. |
| CacheAside.AnsweredBeforeFill | frameworks/bun/server.ts:244-249 | In Bun every GET that is about to fill the cache has already been answered, with the row it will store. |
| CacheAside.FreshFromHereIff | frameworks/aiohttp/app.py:235-298 | In every state of every run: all HITs on an item in all continuations that do not write it show the table's row exactly if no live entry and no pending fill holds another one. |
| CacheAside.FreshAfterDeleteIff | frameworks/aiohttp/app.py:294-298 | Right after a delete that reached Redis, exactly if no request still to fill holds another row than the table's. |
| CacheAside.FillIsServed | frameworks/aiohttp/app.py:262-266 | A pending fill can be completed and served to a GET that starts after it, from any state, on either server. |
| CacheAside.StaleReadAfterPutHappens | frameworks/bun/server.ts:236-289 | For either server, any row and any PUT that changes it, a run ends with the PUT answered and such a fill pending, and a GET started then is served the old row. |
| CacheAside.EntryOrigin | frameworks/aiohttp/app.py:253-266 | Every cache entry in every reachable state was put there by one SET of a row one SELECT returned, and has been there ever since. |
| CertificateRotation.RotatingCertificate.constructor | frameworks/aspnet-minimal/RotatingCertificate.cs:33-40 | Reads certificate, key and the two stamps with the writer free to act between any two of these reads; loads before it stamps. |
| CertificateRotation.RotatingCertificate.Open | frameworks/aspnet-minimal/RotatingCertificate.cs:33-40 | A construction that reads halves of two pairs throws; any other gives a fresh object. |
| CertificateRotation.RotatingCertificate.StepOutsideLock | frameworks/aspnet-minimal/RotatingCertificate.cs:42-63 | One step of Current, or of ReloadIfChanged up to taking the lock: throttle, note the time, two stamp reads, first comparison, lock, serve. |
| CertificateRotation.RotatingCertificate.StepInsideLock | frameworks/aspnet-minimal/RotatingCertificate.cs:63-80 | One step under the lock: second comparison, two file reads, swap, record the stamp taken before the load, dispose; a failed load changes nothing and releases the lock. |
| CertificateRotation.UninterruptedHandshake | frameworks/aspnet-minimal/RotatingCertificate.cs:42-80 | The atomic steps of a thread nobody interrupts are the getter: under 1000 ms nothing but the handing out; else the time of the check moves to now, and a later of the two stamps other than the recorded one and matching halves bring in the new pair, record the stamp and dispose the old certificate. |
| CertificateRotation.ChecksIffASecondIsOver | frameworks/aspnet-minimal/RotatingCertificate.cs:46-51 | In every run, a handshake that looks at the clock has stamped the files by the time it is served exactly if 1000 ms or more had gone by since the last check, and then the time of the last check became the time it noted. |
| CertificateRotation.HandshakeConvergesIff | frameworks/aspnet-minimal/RotatingCertificate.cs:46-75 | With the files at rest and matching, a handshake that looks at the clock that late leaves their pair served for good once it is served, exactly if it is not so that the constructor missed a rotation and nothing was written since. |
| CertificateRotation.LoadsOnlyNews | frameworks/aspnet-minimal/RotatingCertificate.cs:65 | Whoever goes on to load under the lock has a stamp that is not the recorded one: a second thread does not load again what the first has loaded. |
| CertificateRotation.OwnedInsideLock | frameworks/aspnet-minimal/RotatingCertificate.cs:63-75 | Each locked step keeps: installed certificates are the disposed ones, the one being retired, and the current one, in that order, each once. |
| CertificateRotation.AlwaysOwned | frameworks/aspnet-minimal/RotatingCertificate.cs:42-80 | That holds in every reachable state of every interleaving. |
| CertificateRotation.DisposedExactlyOnce | frameworks/aspnet-minimal/RotatingCertificate.cs:63-75 | With the lock free, an installed certificate was disposed exactly once if it is not current, and never if it is. |
| CertificateRotation.InstalledWasLoaded | frameworks/aspnet-minimal/RotatingCertificate.cs:69-71 | Whatever becomes current after the first was read, half by half, by one thread under the lock, and the halves matched. |
| CertificateRotation.ConvergenceIff | frameworks/aspnet-minimal/RotatingCertificate.cs:42-80 | In every run, once the files rest and match, any check stamped after that and finished leaves the served pair equal to theirs for good, late entrants with older stamps included, exactly if it is not so that the constructor missed a rotation and nothing was written since. |
| CertificateRotation.FreshAtRest | frameworks/aspnet-minimal/RotatingCertificate.cs:60-72 | Where the files rest, everything in flight is fresh unless the constructor missed a rotation and nothing was written since. |
| CertificateRotation.WriteHeals | frameworks/aspnet-minimal/RotatingCertificate.cs:60-72 | After a missed rotation the next write makes every recorded stamp old. |
| CertificateRotation.SettledForever | frameworks/aspnet-minimal/RotatingCertificate.cs:63-74 | No later step of any thread changes the pair served, or what any thread is about to install, once it is the files' own. |
| CertificateRotation.AlwaysFresh | frameworks/aspnet-minimal/RotatingCertificate.cs:60-72 | Between writes and through them: a thread whose stamp is the last write's, or who loads after it was recorded, holds only what the files hold now. |
| CertificateRotation.ConvergesUnlessRotationMissed | frameworks/aspnet-minimal/RotatingCertificate.cs:33-40 | The constructor loads before it stamps. Every later run converges exactly if the recorded stamp is not already the last write's while another pair is served. |
| CertificateRotation.QuietConstructorConverges | frameworks/aspnet-minimal/RotatingCertificate.cs:33-40 | So every run converges if nobody writes during the construction. |
| CertificateRotation.ServedUndisposed | frameworks/aspnet-minimal/RotatingCertificate.cs:52 | A handshake is handed the current certificate, which has not been disposed. |
| CertificateRotation.ServedDisposedIff | frameworks/aspnet-minimal/RotatingCertificate.cs:52-73 | What a handshake was handed is disposed, at any later time, exactly if another certificate is current and its replacer is through with the old one: nothing waits for the handshake. |
| CertificateRotation.ServedThenDisposedHappens | frameworks/aspnet-minimal/RotatingCertificate.cs:52-73 | For any two pairs there is a run in which a served certificate is disposed while the handshake holds it. |
| CertificateRotation.MissedForever | frameworks/aspnet-minimal/RotatingCertificate.cs:37-61 | After such a miss no check reloads while the files are not written again. |
| CertificateRotation.RotationInsideConstructorIsMissed | frameworks/aspnet-minimal/RotatingCertificate.cs:37-38 | A whole rotation between the load and the stamp is such a miss, for any two pairs. |
| WebSocketFrames.SendFrame | scripts/validate-ws.py:55-77 | What reaches the wire is the frame of section 5.2 of RFC 6455: FIN and opcode, mask bit and shortest of three lengths, key, masked payload. |
| WebSocketFrames.RecvExact | scripts/validate-ws.py:104-111 | However the stream is cut into reads, exactly n bytes are taken, or the connection ends first and that is reported. |
| WebSocketFrames.RecvLength | scripts/validate-ws.py:86-91 | The length in one of its three encodings, most significant byte first. |
| WebSocketFrames.RecvFrame | scripts/validate-ws.py:79-102 | Against any segmentation the result is the decoding of the whole stream, and reading stops at the last byte of the frame. |
| WebSocketFrames.RecvFrames | scripts/validate-ws.py:79-111 | Concatenated frames come back as the same list in order, and the tail is left unread. |
| WebSocketFrames.RoundTrip | scripts/validate-ws.py:55-102 | Decoding what was encoded, with any key or none and any payload below 2 to the 64th, gives the payload back and the opcode modulo 16, and leaves the rest of the stream. |
| WebSocketFrames.OpcodeSurvivesIffNibble | scripts/validate-ws.py:57-84 | The frame itself comes back exactly if the opcode is below 16: the sender does not check. |
| WebSocketFrames.HeaderShape | scripts/validate-ws.py:57-73 | Size and first bytes of a header: which of the three length forms is used, and when the key is there. |
| WebSocketFrames.TruncationIsDetected | scripts/validate-ws.py:104-110 | No proper prefix of a frame decodes. |
| WebSocketFrames.MoreBytesKeepTheFrame | scripts/validate-ws.py:79-100 | Bytes after a frame do not change what it decodes to. |
| WebSocketFrames.UnpackPack | scripts/validate-ws.py:67-69 | Network byte order reads back for any width that fits the number. |
| WebSocketFrames.MostSignificantFirst | scripts/validate-ws.py:67-69 | Byte k of a packed number is its k-th most significant one. |
| WebSocketFrames.XorBitByBit | scripts/validate-ws.py:74-96 | A bit of the masked byte is set exactly if the bits of data and key differ. |
| WebSocketFrames.MaskTwice | scripts/validate-ws.py:72-96 | Masking with one key twice is the identity. |
| WebSocketFrames.FrameOnTheWire | scripts/validate-ws.py:57-77 | A frame byte by byte: FIN with the opcode, mask bit with length, 126 or 127, the length in big-endian bytes, the key, and payload byte i differing from what was given exactly in the bits of key byte i mod 4. |
| WebSocketFrames.StreamIsRead | scripts/validate-ws.py:79-100 | Any stream, whoever wrote it: a frame is read exactly if the bytes it announces are there, and it has the opcode's four bits, the payload with byte i unmasked by key byte i mod 4, and the rest of the stream. |
| WebSocketFrames.StreamAnnounces | scripts/validate-ws.py:86-91 | Every stream long enough for its length field announces a length. |
| ChunkedBody.DecodeChunked | scripts/validate-frag.py:123-130 | The loop returns the specified body or fails where a size line is no number; it ends on every input, since an empty line reads as zero. |
| ChunkedBody.DecodeInvertsEncode | scripts/validate-frag.py:123-130 | For any chunks (CRLF in the data, upper or lower case hex, leading zeros, blanks and extensions in the size line) the loop yields exactly their concatenation and ignores what follows the zero chunk. |
| ChunkedBody.SizeLineReadsBack | scripts/validate-frag.py:125-126 | A size line of section 7.1 of RFC 9112 is cut at its CRLF and reads as the number it announces. |
| ChunkedBody.HexTextReadsBack | scripts/validate-frag.py:126 | Every number written in hexadecimal reads back. |
| ChunkedBody.NumeralReads | scripts/validate-frag.py:126 | Figures and letters of either case, with single underscores between them or none, read as the number they write. |
| ChunkedBody.ReadsNumeral | scripts/validate-frag.py:126 | And nothing else is read as digits. |
| ChunkedBody.IntIsRead | scripts/validate-frag.py:117-132 | Python's int on bytes: white space around, a sign, 0x for base sixteen, and such digits. |
| ChunkedBody.SlicesAreWhole | scripts/validate-frag.py:129-132 | Cutting at any n, negative ones included, gives two parts that make up the whole. |
| ChunkedBody.TruncationYieldsPrefix | scripts/validate-frag.py:123-130 | A stream cut anywhere still decodes, to a prefix of the data: a lost end is not noticed, but nothing else is ever returned. |
| ChunkedBody.TruncationLosesNothingIff | scripts/validate-frag.py:123-130 | The whole body comes back exactly if the cut leaves all bytes up to the end of the last chunk's data. |
| ResponseParsing.ParseResponse | scripts/validate-frag.py:110-137 | Status and body, or failure, as specified: first blank line, second word of the first line, dictionary of fields, then chunked, length or all that is left. |
| ResponseParsing.StatusIs | scripts/validate-frag.py:117 | The status is the number in the second word of the first line. |
| ResponseParsing.ReadFields | scripts/validate-frag.py:118-121 | Under each trimmed, lower-cased name the dictionary holds the trimmed value of the last line of that name, cut at its first colon. |
| ResponseParsing.ResponseReadsBack | scripts/validate-frag.py:113-134 | For any fields in any order and letter case and any body: the status is the first line's, and the body is what the last transfer coding and length fields call for. |
| ResponseParsing.ChunkedResponseReadsBack | scripts/validate-frag.py:110-130 | A chunked response gives the data of its chunks, whatever length field it has besides and whatever bytes follow. |
| ResponseParsing.SizedResponseReadsBack | scripts/validate-frag.py:110-134 | One that is not chunked gives exactly as many bytes as its last length field says. |
| ResponseParsing.UnsizedResponseReadsBack | scripts/validate-frag.py:110-134 | One with neither gives every byte after the blank line. |
| ResponseParsing.HeadIsCutOff | scripts/validate-frag.py:113 | The head ends at the first blank line, whatever the body holds. |
| ResponseParsing.NoBlankNoResponse | scripts/validate-frag.py:113-115 | Without a blank line there is no response. |
| TextEmbedding.EscapeIsOnePass | scripts/gen_leaderboard_data.py:1966 | The two sequential replacements equal one pass that escapes each character once. |
| TextEmbedding.LiteralReadsBack | scripts/gen_leaderboard_data.py:1965-1966 | Reading the literal by the escape rules of JavaScript gives the text back and ends at the very closing quote exactly if the text has no raw line terminator, which ASCII-only JSON has not. |
| TextEmbedding.PayloadReadsBack | scripts/gen_leaderboard_data.py:1951-1966 | So does the whole assignment statement, opening and closing included. |
| TextEmbedding.TopLevelRules | scripts/gen_leaderboard_data.py:736-748 | The character loop returns the stripped pieces of the text. |
| TextEmbedding.PiecesConcatenate | scripts/gen_leaderboard_data.py:738-747 | Unstripped pieces and leftover concatenate to the input, for every input. |
| TextEmbedding.PiecesEndAtRuleEnds | scripts/gen_leaderboard_data.py:741-747 | Each piece runs from one closing brace at depth zero to the very next one; the leftover holds none. |
| TextEmbedding.RuleEndIff | scripts/gen_leaderboard_data.py:741-747 | A rule ends at each closing brace up to which as many braces are closed as opened. |
| LatencyScore.BestOf | scripts/latency_score.py:105-107 | The least non-zero value of a column over the rows, or none. |
| LatencyScore.ScoreRows | scripts/latency_score.py:109-118 | Every row in place gets the marks and the score of its own measurements against the bests of the whole field; nothing else changes. |
| LatencyScore.Pick | scripts/latency_score.py:130-158 | The first run with the greatest score, then throughput; none if there are no runs. |
| LatencyScore.ScoreInRange | scripts/latency_score.py:110-117 | Scores lie in 0 to 100. |
| LatencyScore.PointsOfAHundred | scripts/latency_score.py:109-117 | A score is the rate factor times 60 points by cost, 25 and 15 by the tails. |
| LatencyScore.FullCreditIff | scripts/latency_score.py:81-111 | Which three profiles are scored so, and from which rate on each gives full credit. |
| LatencyScore.RateIsTheShare | scripts/latency_score.py:81-82 | Below that the factor times the full rate is what was served. |
| LatencyScore.CostIsInverse | scripts/latency_score.py:92-96 | The cost mark times the cost is the best cost. |
| LatencyScore.TailFallsByDecades | scripts/latency_score.py:85-89 | A tail loses a third of its mark with every decade above the best and is at zero exactly from three decades on. |
| LatencyScore.MeasuredIs | scripts/latency_score.py:138-154 | Processor time for one request where both are known, else none; the other columns as they are. |
| LatencyScore.PickIff | scripts/latency_score.py:157-158 | The pick is the run no other outscores, no other of the same score outruns, and the first of those. |
| LatencyScore.PerfectIffBestAtAll | scripts/latency_score.py:81-117 | 100 exactly when the full rate is held and all three values are the field's best. |
| LatencyScore.BetterNeverScoresLess | scripts/latency_score.py:81-117 | A row at least as good on all four measures scores at least as much. |
| LatencyScore.BeatenRunIsNotPicked | scripts/latency_score.py:157-158 | A run no better than another on any measure, and slower, is not picked. |
| LatencyScore.JoiningOnlyLowers | scripts/latency_score.py:105-117 | When a row joins the field no score rises, and none moves if it improves no best. |
| LatencyScore.ScoreStaysIff | scripts/latency_score.py:109-117 | When a row joins, another row keeps its score exactly if it serves nothing or keeps all three marks. |
| LatencyScore.NewcomerMovesNothingIff | scripts/latency_score.py:105-117 | A newcomer moves no score in the field exactly if every usable best stays the best, provided each best has a holder that serves requests. |
| LatencyScore.NewcomerMovesScores | scripts/latency_score.py:109-117 | A newcomer that does not meet this: it takes a perfect score to 70. |
| Aggregate.ColumnFor | scripts/gen_leaderboard_data.py:1218-1232 | One cell for each framework with a row on the scored connection counts, no framework twice, holding the averages of rate, memory and bandwidth over exactly its own rows. |
| Aggregate.AverageIsBetween | scripts/gen_leaderboard_data.py:1229 | An average lies between the lowest and highest of its rows. |
| Aggregate.AverageTimesCount | scripts/gen_leaderboard_data.py:1225-1231 | Average times number of rows is the sum, for rate, memory and bandwidth. |
| Aggregate.RowsOfSplits | scripts/gen_leaderboard_data.py:1223-1228 | A framework's rows of two lists together are those of the first and then those of the second. |
| Aggregate.RowsOfOne | scripts/gen_leaderboard_data.py:1223-1228 | Of a single row they are that row if it bears the name. |
| Aggregate.SameRowsSameCells | scripts/gen_leaderboard_data.py:1222-1231 | The cells of a league's frameworks depend on their rows alone, whatever others have. |
| Aggregate.RowsOutsideMoveNothing | scripts/gen_leaderboard_data.py:1222-1431 | From published files to contributions: two boards averaged from rows that agree on the league's frameworks give the same contributions inside it on every profile that is not fixed-rate. |
| Composite.ComputeBar | scripts/gen_leaderboard_data.py:1331-1338 | The loop finds the fewest bytes per request in the league. |
| Composite.BarIsLeast | scripts/gen_leaderboard_data.py:1331-1338 | The bar is at most every league entry's bytes per request, and BarIsAttained: one entry's own. |
| Composite.AdjustmentOnlyLowers | scripts/gen_leaderboard_data.py:1340-1348 | The size adjustment of json-comp never raises an entry of the league and spares exactly those at the bar or without a bandwidth. |
| Composite.PenaltyIsTheSquare | scripts/gen_leaderboard_data.py:1340-1347 | On json-comp the effective value times the square of the entry's bytes per request is its rate times the square of the league's fewest. |
| Composite.OtherwiseTheRate | scripts/gen_leaderboard_data.py:1340-1348 | On every other profile, and without a bandwidth, it is the rate. |
| Composite.PointsFollowRates | scripts/gen_leaderboard_data.py:1431 | Two entries' points on a profile are as their rates. |
| Composite.PointsFollowCompression | scripts/gen_leaderboard_data.py:1340-1431 | On json-comp they are as rate cubed over bandwidth squared. |
| Composite.FixedRateGivesTenfold | scripts/gen_leaderboard_data.py:1428-1429 | A fixed-rate profile gives ten times its own score. |
| Composite.EarnsPointsIff | scripts/gen_leaderboard_data.py:1263-1275 | On any other an entry earns points exactly if it has a rate there and the profile counts for its tier. |
| Composite.AxesCost | scripts/gen_leaderboard_data.py:1283-1319 | Every axis declared missing costs 2.5 percent, for the three framework tiers and outside the WebSocket and gRPC boards. |
| Composite.FamilyMembers | scripts/gen_leaderboard_data.py:1375-1376 | Which categories make up a family. |
| Composite.TotalSplits | scripts/gen_leaderboard_data.py:1410-1431 | Points add up over the profiles. |
| Composite.FieldMembers | scripts/gen_leaderboard_data.py:1376-1433 | Who is in a field and with what score: entries of the league with a rate on some profile of the family that both filters let through, points summed and scaled by completeness. |
| Composite.ComputeMax | scripts/gen_leaderboard_data.py:1397-1400 | The loop finds the greatest effective value of the league, zero if there is none. |
| Composite.SumProfiles | scripts/gen_leaderboard_data.py:1407-1431 | The inner loop gives an entry's total over the scored profiles and whether it has any result. |
| Composite.ComputeComposite | scripts/gen_leaderboard_data.py:1363-1435 | The whole computation returns the specified field, sorted. |
| Composite.ContributionInRange | scripts/gen_leaderboard_data.py:1410-1431 | Every profile contributes between 0 and 1000. |
| Composite.PublishedFixedRatesInRange | scripts/gen_leaderboard_data.py:1428-1429 | Fixed-rate scores meet the range assumed there because the scoring formula keeps them in it. |
| Composite.LeaderContributesAll | scripts/gen_leaderboard_data.py:1397-1431 | Where the league has a result on a profile that is not fixed-rate, some entry of it contributes exactly 1000 if the profile counts for its tier. |
| Composite.FactorInRange | scripts/gen_leaderboard_data.py:1298-1319 | The completeness factor is between 0.90 and 1.00, and 1.00 on WebSocket and gRPC. |
| Composite.ScoreInRange | scripts/gen_leaderboard_data.py:1407-1433 | A composite is at most 1000 for each profile of the family. |
| Composite.LeagueIsolation | scripts/gen_leaderboard_data.py:1322-1431 | Whatever entries outside the league are and did, contributions inside it on profiles that are not fixed-rate stay the same, json-comp included. |
| Composite.FiltersNeverRescore | scripts/gen_leaderboard_data.py:1384-1435 | For any tuned and language filter the result is the unfiltered ranking with the hidden entries struck out: same scores, same order. |
| Ranking.SortSorts | scripts/gen_leaderboard_data.py:1434 | Sorting by descending score, then name, orders strictly and keeps the rows. |
| Ranking.SortedUnique | scripts/gen_leaderboard_data.py:1434 | The key is total: there is one sorted arrangement. |
| Ranking.SortThenKeep | scripts/gen_leaderboard_data.py:1404-1434 | Filtering before and after the sort agree. |
| Ranking.Ranked | scripts/gen_leaderboard_data.py:1353-1360 | The loop gives row i the rank, field size and score specified. |
| Ranking.RankIsRunStart | scripts/gen_leaderboard_data.py:1357 | A rank is one plus the start of the maximal run of adjacent gaps under 1e-9. |
| Ranking.RanksCountBetterIffSeparated | scripts/gen_leaderboard_data.py:1357 | Every rank is one plus the number of strictly better rows exactly when neighbouring scores are equal or at least 1e-9 apart. |
| Ranking.RankNeverWorsensIff | scripts/gen_leaderboard_data.py:1353-1391 | No filter worsens the rank of a row exactly if the row is within the tie width of the first row it shares its rank with. |
| Ranking.NarrowingNeverHurtsIff | scripts/gen_leaderboard_data.py:1353-1391 | No filter worsens any rank exactly if that holds of every row. |
| Ranking.NarrowingNeverHurts | scripts/gen_leaderboard_data.py:1384-1391 | A filter never enlarges the field, and keeps or betters the rank of such a row. |
| Ranking.SeparatedIsNarrow | scripts/gen_leaderboard_data.py:1357 | Scores that are equal or 1e-9 apart meet the condition. |
| Ranking.NearTieChainBreaks | scripts/gen_leaderboard_data.py:1357 | Fields that do not meet it exist: three scores 0.6e-9 apart. |
| BadgeIndex.PublishRow | scripts/gen_leaderboard_data.py:1588-1590 | A row is filed under its key, a tuned one under the alias too; both slots hold the badge that is due there. |
| BadgeIndex.Publish | scripts/gen_leaderboard_data.py:1576-1590 | One ranking: fields under two rows and scores of zero or less are passed over, every other row claims its badge, and nothing claimed before is claimed again. |
| BadgeIndex.PublishField | scripts/gen_leaderboard_data.py:1595-1602 | The whole field and then one field for each language found in it, in sorted order; with that, all languages are covered. |
| BadgeIndex.WriteBadges | scripts/gen_leaderboard_data.py:1592-1607 | After all nested loops every badge that is due is filed, every slot holds a badge due there, and the number written is the number of badges due. |
| BadgeIndex.RowBelongsToPass | scripts/gen_leaderboard_data.py:1571-1590 | A row of a published field is due its badge under that key through that ranking and no other. |
| BadgeIndex.SlotHoldsOwnBadge | scripts/gen_leaderboard_data.py:1565-1574 | With unique slugs, an entry's slot holds its own badge, and nothing if none is due. |
| BadgeIndex.BoardAndIndexAgree | scripts/check_badge_parity.js:146-171 | With unique slugs the first parity loop finds nothing: badge and board agree on rank, field size, score and absence, for every family, league, language and tuned setting. |
| BadgeIndex.IndexHoldsPlaces | scripts/gen_leaderboard_data.py:1538-1602 | With unique slugs the index holds, under slug, family and key, exactly the entry's place among two or more in the league of its tier with a positive score: with tuned entries if the key says so or the entry is tuned, and in its own language under a language key. |
| BadgeIndex.TunedDefaultIsAlias | scripts/check_badge_parity.js:176-185 | Nor does the second: a tuned entry's plain badges are there exactly when its with-tuned ones are, and equal them, link included, by language too. |
| BadgeIndex.NothingOverwrittenIff | scripts/gen_leaderboard_data.py:1560-1574 | No write replaced another exactly when no two entries of one slug are both due a badge under the same family and key. |
| BadgeIndex.UniqueSlugsOverwriteNothing | scripts/gen_leaderboard_data.py:1560-1574 | In particular nothing is overwritten when slugs are unique. |
| BadgeIndex.BadgesAgreeWithTheWholeField | scripts/gen_leaderboard_data.py:1510-1517 | Every badge has the score of the entry's place in the whole league, a field no larger, and a rank no worse if that place is within the tie width of the first of its rank. |
| Slugs.SlugIgnoresCase | scripts/rebuild_site_data.py:104-106 | Names that differ only in case share a slug. |
| Slugs.SlugOfWords | scripts/rebuild_site_data.py:104-106 | The slug of any words, with characters other than letters, digits, dots, underscores and dashes around and between them: the words in lower case, one dash between two. |
| Slugs.SlugOfNone | scripts/rebuild_site_data.py:104-106 | Without such a word it is unnamed. |
| Names.ListingIsSorted | scripts/migrate_results_layout.py:36 | A listing is strictly sorted by code point, files by their full name. |
| Names.NameLessIff | scripts/migrate_results_layout.py:36 | Strings compare by the code points where they first differ, a beginning before what goes on. |
| ResultsStore.Collect | scripts/migrate_results_layout.py:33-57 | Every slug's file holds, under each key, the last row read for it, and the first name read. |
| ResultsStore.LastOfIff | scripts/migrate_results_layout.py:57 | The row that stays under a slug and key is the last one read for them. |
| ResultsStore.FirstNameIff | scripts/migrate_results_layout.py:54 | The name of a file is the first one read for its slug. |
| ResultsStore.AllRowsOfOne | scripts/migrate_results_layout.py:36-53 | A flat file that is an array and none of the three exceptions gives the rows of its items that name a framework. |
| ResultsStore.AllRowsSplits | scripts/migrate_results_layout.py:36 | Files are read one after the other. |
| ResultsStore.Load | scripts/gen_leaderboard_data.py:175-200 | Each key's rows, file by file in listing order, stably sorted by lower-cased name; no empty list appears. |
| ResultsStore.SortKeepsOrder | scripts/gen_leaderboard_data.py:199 | The sort is stable: rows in order stay as they are, ties included. |
| ResultsStore.SortIsStable | scripts/gen_leaderboard_data.py:199 | Rows whose names differ in case at most keep their order. |
| ResultsStore.SortOrders | scripts/gen_leaderboard_data.py:199 | No row comes after one that its lower-cased name precedes. |
| ResultsStore.MigratedArrayComesBackIff | scripts/migrate_results_layout.py:33-88 | What the store shows under the key of a flat array after the migration is that array, each item as often, exactly if each of its items names a framework, no two share a slug, and no earlier file outside those written holds a row under the key. Earlier files have each row named and in its slug's file. |
| ResultsStore.MigratedArrayKeepsOrderIff | scripts/migrate_results_layout.py:12-13 | And it is the very list exactly if the array was also sorted by lower-cased name. |
| ResultsStore.MigratingKeepsFiling | scripts/migrate_results_layout.py:54-57 | After a migration every row of the store is again named and in the file of its slug. |
| ResultsStore.MergingKeepsFiling | scripts/rebuild_site_data.py:149-174 | And after a merge with its purge. |
| ResultsStore.MigrationCanLoseARow | scripts/migrate_results_layout.py:54-57 | An array with rows for C and C# fails the condition, whatever the results directory holds. |
| ResultsStore.SiteData.Migrate | scripts/migrate_results_layout.py:78-88 | One file is written for each slug, then every flat array is removed, read or not. |
| ResultsStore.SiteData.MergeResults | scripts/rebuild_site_data.py:131-174 | The store becomes the override of each framework's file by the run, stale files purged. |
| ResultsStore.SiteData.PurgeStale | scripts/rebuild_site_data.py:166-174 | Exactly the readable files with a non-empty framework that is not current go. |
| ResultsStore.SiteData.LoadResults | scripts/gen_leaderboard_data.py:175-200 | The view of the store, key by key. |
| ResultsStore.MergingOverrides | scripts/rebuild_site_data.py:149-174 | Slug by slug: untouched if the run has nothing for it, else old rows overridden by new ones under the new name, and gone if that is stale. |
| ResultsStore.NewRowsReplaceOld | scripts/rebuild_site_data.py:117-121 | For a current framework alone in its slug each key holds the run's last row for it, or what it held before. |
| ResultsStore.MergingTwiceIsOnce | scripts/rebuild_site_data.py:149-174 | Merging the same run twice equals once, for every store and run. |
| ResultsStore.DisjointRunsCommuteIff | scripts/rebuild_site_data.py:149-174 | Two runs over disjoint slugs can be merged in either order exactly if neither would inherit rows of a stale file, which the purge in between takes away. |
| ResultsStore.OrderCanMatter | scripts/rebuild_site_data.py:166-174 | They do not always commute: C# renamed to C inherits its old rows in one order and loses them in the other. |
| MarkdownLists.ReadList | scripts/gen_leaderboard_data.py:396-431 | At least one line is consumed, and the markup is that of a tree whose entries are, line by line, those of an independent one-pass reading on a stack of indents. |
| MarkdownLists.Parse | scripts/gen_leaderboard_data.py:397-428 | The recursion at the current line: it ends, consumes at least its own line, and its tree continues the outline of the lines around it. |
| MarkdownLists.CutAndAdd | scripts/gen_leaderboard_data.py:414-424 | A stored item always ends in its closing tag, so the five-character cut removes that tag and nothing else. |
| MarkdownLists.HasItems | scripts/gen_leaderboard_data.py:413-424 | There is an item to add to whenever a deeper list or a continuation line is met. |
| MarkdownLists.EndsAlike | scripts/gen_leaderboard_data.py:403-420 | Where a list ends, blank lines before a shallower line included, it makes no difference to what follows that it was open. |
| MarkdownLists.EveryTextOnceInOrder | scripts/gen_leaderboard_data.py:400-427 | Every consumed line that is not blank gives its text to exactly one entry, in order. |
| MarkdownLists.TreeHoldsEveryLine | scripts/gen_leaderboard_data.py:396-431 | So the tree's texts are those of the consumed lines. |
| MarkdownLists.TreeIsBalanced | scripts/gen_leaderboard_data.py:426-428 | Lists nest in items and items in lists: every tag is closed by its own. |
| MarkdownLists.TreeByOutline | scripts/gen_leaderboard_data.py:396-431 | The outline determines the tree. |
| MarkdownBlocks.ReadTable | scripts/gen_leaderboard_data.py:381-393 | Header, divider, then rows up to the first blank line or line without a bar; the markup is the table's. |
| MarkdownBlocks.ReadFence | scripts/gen_leaderboard_data.py:446-457 | Up to the first closing fence or the end of the text, where the cursor runs one past it. |
| MarkdownBlocks.ToHtml | scripts/gen_leaderboard_data.py:434-493 | The blocks take up every line once and in order, each all of its kind, and the output is their markup, one line break between two; the loop advances on every input and quotations recurse on shorter text. |
| MarkdownBlocks.QuotationIsShorter | scripts/gen_leaderboard_data.py:478-485 | The text of a quotation is strictly shorter than the text around it. |
| MarkdownBlocks.QuotationSplits | scripts/gen_leaderboard_data.py:483-484 | Joined and split again, the quotation is the very lines that were unquoted. |
| MarkdownBlocks.OneReading | scripts/gen_leaderboard_data.py:444-491 | Such a reading is unique: lines decide every block, quotation and list. |
| MarkdownBlocks.BlocksAreBalanced | scripts/gen_leaderboard_data.py:434-493 | Tables, lists, quotations, paragraphs and fences form a balanced tag sequence. |
| MarkdownBlocks.OneBalancedOutput | scripts/gen_leaderboard_data.py:434-493 | A text has one output, and it is the text of balanced tokens. |
| MarkdownBlocks.OutputIsTokens | scripts/gen_leaderboard_data.py:493 | Joining the strings put out is showing the tokens. |
| MarkdownBlocks.EscapeLeavesNoMarkup | scripts/gen_leaderboard_data.py:456 | Escaped text can neither open a tag nor end an attribute. |
| MarkdownOutput.EscapeReadsBack | scripts/gen_leaderboard_data.py:456 | Whoever reads the five character references has the text again: escaping loses nothing. |
| MarkdownOutput.FencesReadBack | scripts/gen_leaderboard_data.py:446-457 | In the output of any text every fence of its reading stands in its tags as text in which no tag begins and which reads back as the lines of the code. |
| MarkdownOutput.HeadingOutput | scripts/gen_leaderboard_data.py:462-466 | A heading of each level with the slug of its text for an anchor. |
| MarkdownOutput.TableOutput | scripts/gen_leaderboard_data.py:383-394 | A table cell by cell and row by row. |
| MarkdownOutput.ListOutput | scripts/gen_leaderboard_data.py:396-431 | A list as nested strings, ordered or not, each item with what follows its text inside its tags. |
| MarkdownOutput.QuoteOutput | scripts/gen_leaderboard_data.py:484 | A quotation around the output of its own text. |
| MarkdownOutput.ParaOutput | scripts/gen_leaderboard_data.py:439-442 | A paragraph of its lines joined by blanks. |
| MarkdownOutput.NextOutput | scripts/gen_leaderboard_data.py:493 | One line break between two blocks, none for blank lines. |
| MarkdownLines.FenceReads | scripts/gen_leaderboard_data.py:446 | Three backquotes, a word and white space open a fence of that language. |
| MarkdownLines.FenceIsWritten | scripts/gen_leaderboard_data.py:446 | And nothing else does. |
| MarkdownLines.CloseIff | scripts/gen_leaderboard_data.py:451 | Three backquotes and white space close it, and nothing else. |
| MarkdownLines.HeadingReads | scripts/gen_leaderboard_data.py:462 | One to six hashes and white space make a heading of that level. |
| MarkdownLines.HeadingIsWritten | scripts/gen_leaderboard_data.py:462 | And nothing else does. |
| MarkdownLines.ListLineReads | scripts/gen_leaderboard_data.py:371 | Indent, marker, white space and text are read as such. |
| MarkdownLines.ListLineIsWritten | scripts/gen_leaderboard_data.py:371 | Every list line is so made up. |
| MarkdownLines.RuleIff | scripts/gen_leaderboard_data.py:469 | A rule is three or more of one mark, otherwise white space, and no list line. |
| MarkdownLines.QuoteReads | scripts/gen_leaderboard_data.py:478-482 | A quoted line is read without its mark and one white space after it. |
| MarkdownLines.QuoteIsWritten | scripts/gen_leaderboard_data.py:478-482 | Every quoted line has the mark after white space only. |
| MarkdownLines.DividerIff | scripts/gen_leaderboard_data.py:474 | The line below a header has a bar and a dash, and besides them colons and blanks only. |
| MarkdownLines.TableTakesBars | scripts/gen_leaderboard_data.py:381-393 | The rows of a table are the lines under its divider up to the first line without a bar, each cut into its cells. |
| MarkdownLines.RowReads | scripts/gen_leaderboard_data.py:374-380 | Cells between bars, with white space anywhere, are read back stripped. |
| MarkdownLines.BareRowReads | scripts/gen_leaderboard_data.py:374-380 | So they are without bars at the ends. |
| MarkdownLines.KindByShape | scripts/gen_leaderboard_data.py:444-491 | The shape of a line decides its kind; where two meet, a heading comes before a table and a table before quotations and lists. |
| Strings.SplitJoin | scripts/gen_leaderboard_data.py:435-484 | Split undoes join on pieces without the separator. |
| Strings.JoinSplit | scripts/gen_leaderboard_data.py:435 | Join undoes split on every text. |
| Strings.StripIs | scripts/gen_leaderboard_data.py:373-442 | Stripping takes the white space at both ends and nothing else. |

## Left out

- HTTP, routing, SQL, drivers, forking and signals: only the atomic reads and writes of the item handlers are kept, and a request that fails before its first await is not a task.
- The JSON text of a cached item: a body and its row determine each other. Redis starts empty, and two requests never share an id.
- Reads of file times and contents that fail on their own (a file briefly missing) and the owner's final Dispose: a load fails here only by a mismatched or unreadable pair.
- The parsing of `12.30MB/s`, `173.0us` and `512 MiB`: rows carry numbers already.
- Rounding of published scores to one decimal and floating-point error: scores are exact, so the parity script's tolerance of 0.05 is met with equality.
- The badge documents, colours, markdown lines and the entry header (name, tier, language) that the first writer of a slug leaves: the index maps slug, family and key to rank, field size, score and link.
- The stop on clashing language slugs before badges are written; languages are told apart by name.
- BadgeIndex.TunedDefaultIsAlias: stated for entries that appear in some field, since only those can be in the index.
- The board's own code in `site/leaderboard/index.html` is not part of this model; the field it renders is taken to be the one computed here.
- The order of files and keys that has no effect: the migration's writes and deletions, and the keys inside one file.
- Files whose JSON is not an object or a list of the expected shape, where the scripts stop with an exception; a file that cannot be parsed is modelled.
- The walk over run directories: a run is the list of its files in the order visited.
- Inline markup (code, links, emphasis): an arbitrary function on text, so its own tags are not part of the balance result. Shortcodes, front matter and page templates.
- Digits, word characters and lower-casing outside ASCII; white space is Python's full set.
- Other escapes of JavaScript literals than those of the backslash and the apostrophe, since the escaped text contains no other.
- LatencyScore.NewcomerMovesNothingIff: fields where a best is held only by entries that serve nothing are left to ScoreStaysIff, row by row, because there it depends on where the logarithm is flat.
- ResponseParsing.ParseResponse: the final decoding of the body as text and its trimming are left out, because they are calls into Python's string library.
- The WebSocket handshake (SHA-1 and base64), timeouts as wall-clock time, and fragmentation: the frame reader has none.
- The other copies of the item handlers, page generation, dataset and seed generators, and pool sizing: the same protocol again, string assembly, or one-line arithmetic.
