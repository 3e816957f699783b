# Cliora: verified models

Cliora runs command-line coding sessions on enrolled nodes and shows them in a
browser. These Dafny modules model the parts of it whose claims no finite test
settles, and prove what they promise. `dafny verify dfyconfig.toml` checks all of
it.

Four groups:

- **Fixture encoders.** The generator of preview fixtures writes JPEG, GIF and
  encrypted PDF files by hand. For each encoder there is a decoder written as
  specification, from the standard and not from the encoder, and a proof that it
  undoes the encoder, for inputs of any size:
  `JpegEntropy`, `JpegFile`, `GifLzw`, `Rc4`, `AesSbox`, `AesColumns`,
  `AesCipher`, `AesCbc`, `PdfStandard`, `PdfEncryption`, `PdfXref`, `PdfReader`,
  `PdfDocument`.
- **Central's live protocols.** Terminal fan-out (`TerminalQueue`,
  `Relay`), request correlation (`Registry`), preview streams and their
  slots (`PreviewStream`, `PreviewSlots`, `Completion`), the session and
  system-terminal state machine (`Sessions`), tunnels (`Tunnels`), the shell reaper
  (`Reaper`) and refresh tokens (`Auth`). Central is one event loop, and code
  between two suspensions is one step. Each protocol is a function from a state
  and an event to a state; an invariant is proved for every step and from it the
  theorems about every run. What a run comes to is also said by its events alone,
  without that function, and proved to be the same. The classes beside it have the source's fields and
  methods, and each method is proved to make exactly that step.
- **Policy and query algebra.** Port policy (`PortPolicy`), keyset paging
  (`AuditPaging`, `Base64Cursor`), the path guard (`RelPath`) and redaction
  (`Redaction`).
- **The traceability tool.** Anchor injection and its reader (`AnchorReader`,
  `AnchorInjection`, `Bootstrap`, `NumberedAnchors`) and the release verdict
  (`Evidence`).

`Nums`, `Strings` and `Counting` hold what they share.

Inputs that come from outside are parameters: hash functions, of which only the
length of the result is known, daemon and credential-store answers, the clock, the
JSON codec of a cursor, the case folding and the token patterns of redaction, the
slug function of headings. A step that can raise returns None or an error instead.
Identifiers are numbers.

Where the code does something other than its comments say, the model follows the
code, and the exact condition is proved:

- A PDF literal string with a carriage return reads back as a line feed
  (`PdfXref.LiteralRoundTrip`).
- A preview stream is labelled OK without a complete body when a request raises
  something other than an ApiError (`PreviewStream.OkMeansComplete`).
- While `close_all` is closing one socket, the connections after it are no longer
  current and still have their waiters (`Registry.CloseAllLeavesWaiters`).
- The unique index on tunnels counts expired rows that nobody closed, while the
  check before it does not: such a port cannot be forwarded again and the request
  ends in a database error (`Tunnels.CrashesIffExpiredIsUnclosed`,
  `Tunnels.ExpiredPortCrashes`).
- An unreadable stored credential leaves a live tunnel row without a URL
  (`Tunnels.RefusedLeavesARowIff`, `Tunnels.UnreadableCredentialLeavesARow`).
- Where the ceiling on lifetimes was lowered, rotating a password can close the
  tunnel and open none (`Tunnels.RotationTtlRefusedIff`,
  `Tunnels.RotationLosesTheTunnel`).
- A list in which no spec can be read permits nothing, although each spec is said
  to be ignored (`PortPolicy.UnreadableListPermitsNothing`).
- A path guard result can start with `~` (`RelPath.IdempotentUnlessTilde`).
- A paged query with neither bound slides between its pages and can lose a row
  (`AuditPaging.NothingLostIff`, `AuditPaging.SlidingWindowLosesRows`).
- The hundredth criterion of a section gets an anchor that is not cleaned again,
  and a file without lines becomes one empty line
  (`Bootstrap.CleaningUndoesInjectionIff`).
- A done-callback of the shell reaper can forget a newer timer, which happens
  exactly if a shell is scheduled before the callback of its cancelled timer
  (`Reaper.CallbackForgetsIff`, `Reaper.SettlingIsExact`).

## Model

| member | source | states |
|---|---|---|
| `JpegFile.JpegFlat` | scripts/p31/gen_preview_fixtures.py:97-140 | a baseline decoder, run on the bytes that were written, returns an image of the given size and Exif orientation whose blocks have exactly the requested grey values, each at its column and row; the scan is byte-stuffed and followed by the end marker |
| `JpegFile.FileDecodes` | scripts/p31/gen_preview_fixtures.py:100-140 | the decoder finds orientation, quantiser, size, component and both Huffman tables by reading the segments, and returns every block |
| `JpegFile.GridIsGrid` | scripts/p31/gen_preview_fixtures.py:119-121 | the levels are in reading order: row by row, from left to right |
| `JpegFile.ExifReads` | scripts/p31/gen_preview_fixtures.py:101-107 | a TIFF directory (section 2 of TIFF 6.0) holds the orientation, and a reader finds it by its tag |
| `JpegFile.BlocksDecode` | scripts/p31/gen_preview_fixtures.py:119-129 | for every sequence of grey values the differential predictor, category code and magnitude bits decode to those values, and the padding is left over |
| `JpegFile.ExtendInvertsMagnitude` | scripts/p31/gen_preview_fixtures.py:125-128 | the EXTEND procedure (section F.2.2.1 of ITU-T T.81) inverts the magnitude bits of every nonzero difference |
| `JpegFile.CategoryAtMostEleven` | scripts/p31/gen_preview_fixtures.py:110-126 | no difference of two grey values needs a category the table has no code for |
| `JpegFile.PutBlock` | scripts/p31/gen_preview_fixtures.py:125-129 | one block appends exactly its category, magnitude and end-of-block bits |
| `JpegEntropy.Bits.Put` | scripts/p31/gen_preview_fixtures.py:80-89 | appends exactly the low `length` bits of the value, most significant first, whatever was written before |
| `JpegEntropy.Bits.PutBit` | scripts/p31/gen_preview_fixtures.py:82-89 | one bit is appended to the stream, through the accumulator and the stuffing |
| `JpegEntropy.Bits.Flush` | scripts/p31/gen_preview_fixtures.py:91-94 | what is returned is the stuffed form of the bits, completed by fewer than eight one-bits |
| `JpegEntropy.UnstuffInvertsStuff` | scripts/p31/gen_preview_fixtures.py:85-87 | removing the stuffing (section F.1.2.3 of ITU-T T.81) gives back every byte string and stops at the marker after it |
| `JpegEntropy.NoMarkerInScan` | scripts/p31/gen_preview_fixtures.py:85-87 | every 0xFF in a stuffed scan is followed by 0x00 |
| `GifLzw.Write` | scripts/p31/gen_preview_fixtures.py:156-180 | a dictionary-keeping LZW decoder (Appendix F of GIF89a) on the sub-blocks returns exactly the indices, reading three-bit codes throughout |
| `GifLzw.CodesDecode` | scripts/p31/gen_preview_fixtures.py:158-162 | a clear code before every pair keeps the decoder's width at three bits, for every index list |
| `GifLzw.CodeList` | scripts/p31/gen_preview_fixtures.py:158-162 | the code list is a clear code before each pair, then the end code |
| `GifLzw.CodesLaw` | scripts/p31/gen_preview_fixtures.py:158-161 | place by place, every third code clears and the two after it are the next indices |
| `GifLzw.Pack` | scripts/p31/gen_preview_fixtures.py:163-173 | the accumulator loop packs the codes least significant bit first, with fewer than eight padding bits |
| `GifLzw.Blocks` | scripts/p31/gen_preview_fixtures.py:174-179 | the minimum code size and then sub-blocks of at most 255 bytes, all but the last full, ended by an empty one |
| `GifLzw.SubBlocksRead` | scripts/p31/gen_preview_fixtures.py:174-179 | reading the sub-blocks gives the bytes back |
| `Rc4.Rc4` | scripts/p31/gen_preview_fixtures.py:212-225 | the output is the data combined with the keystream of the scheduled table, which stays a permutation |
| `Rc4.CipherInvertsItself` | scripts/p31/gen_preview_fixtures.py:218-225 | applying the cipher twice with one key returns the data, for every data and nonempty key |
| `Rc4.ScheduleLaw` | scripts/p31/gen_preview_fixtures.py:213-217 | each turn of the schedule exchanges the next entry with the one found by adding it and the next byte of the key, from the identity table on |
| `Rc4.KeystreamLaw` | scripts/p31/gen_preview_fixtures.py:218-224 | each byte of the keystream is the entry at the sum of the two that were just exchanged, at indices that move on as they should |
| `Rc4.Schedule` | scripts/p31/gen_preview_fixtures.py:213-217 | the scheduling loop leaves the table a permutation of 0..255, equal to the recursive schedule |
| `Rc4.SwapInPlace` | scripts/p31/gen_preview_fixtures.py:217 | swapping two entries in place keeps the table a permutation |
| `AesSbox.Sbox` | scripts/p31/gen_preview_fixtures.py:232-251 | the loop ends and leaves the table of section 5.1.1 of FIPS 197: each byte's multiplicative inverse in GF(2^8), then the affine transformation, and so a bijection of the 256 bytes |
| `AesSbox.TableIsStandard` | scripts/p31/gen_preview_fixtures.py:232-251 | the table that is walked through the powers of 3 is that table, entry by entry and bit by bit |
| `AesSbox.PowersMultiply` | scripts/p31/gen_preview_fixtures.py:233-242 | the walk is multiplication in GF(2^8): powers of 3 multiply by adding their exponents |
| `AesSbox.OrderOfThree` | scripts/p31/gen_preview_fixtures.py:233-246 | 3 does not return to 1 in fewer than 255 steps, so the walk does not stop early |
| `AesSbox.EveryByteReached` | scripts/p31/gen_preview_fixtures.py:233-246 | the walk reaches every nonzero byte |
| `AesSbox.ThirdInvertsTriple` | scripts/p31/gen_preview_fixtures.py:236-242 | the shift-and-xor division by 3 inverts the multiplication by 3 |
| `AesColumns.UnmixInvertsMix` | scripts/p31/gen_preview_fixtures.py:278-283 | the inverse column transformation (section 5.3.3 of FIPS 197) undoes the mixing of every column |
| `AesCipher.UnshiftRowsInverts` | scripts/p31/gen_preview_fixtures.py:276 | the inverse row shift undoes the index permutation |
| `AesCipher.UnsubBytesInverts` | scripts/p31/gen_preview_fixtures.py:275 | substitution through a bijective box is undone by searching it |
| `AesCipher.CipherInverted` | scripts/p31/gen_preview_fixtures.py:271-285 | the inverse cipher (section 5.3 of FIPS 197) undoes the cipher for every key schedule and bijective S-box |
| `AesCipher.EncryptBlock` | scripts/p31/gen_preview_fixtures.py:271-285 | the round loop computes that cipher |
| `AesCbc.ExpandKey` | scripts/p31/gen_preview_fixtures.py:254-268 | for keys of 16, 24 and 32 bytes the in-place schedule, with its running round constant, meets section 5.2 of FIPS 197 byte by byte: the first words are the key, and each later byte is that of the word one key length before, combined with the turned and substituted byte and the round constant, the substituted byte or the byte of the word before it |
| `AesCbc.ScheduleLaw` | scripts/p31/gen_preview_fixtures.py:254-268 | the recursive schedule meets that law, for every table and key |
| `AesCbc.ScheduleIsUnique` | scripts/p31/gen_preview_fixtures.py:254-268 | no other list of round keys meets that law |
| `AesCbc.DecryptInvertsEncrypt` | scripts/p31/gen_preview_fixtures.py:294-299 | chained decryption (section 6.2 of NIST SP 800-38A) undoes chained encryption block by block |
| `AesCbc.UnpaddedInvertsPadded` | scripts/p31/gen_preview_fixtures.py:289-291 | the padding is recognised and removed for data of any length |
| `AesCbc.UnsealedInvertsSealed` | scripts/p31/gen_preview_fixtures.py:288-299 | initialisation vector, padding and chaining together are undone |
| `AesCbc.AesCbc` | scripts/p31/gen_preview_fixtures.py:288-299 | the loop computes that chained encryption |
| `PdfEncryption.DecryptionInvertsEncryption` | scripts/p31/gen_preview_fixtures.py:442-451 | all three schemes can be undone for any data; an error is raised exactly for object numbers that do not fit (four bytes in revision 6, three otherwise) |
| `PdfEncryption.ObjectKeyIsStandard` | scripts/p31/gen_preview_fixtures.py:442-451 | the key of an object is the one of algorithm 1 of section 7.6.2 of ISO 32000-1 |
| `PdfEncryption.Encrypt` | scripts/p31/gen_preview_fixtures.py:442-451 | the branches compute that encryption |
| `PdfEncryption.EitherPasswordOpens` | scripts/p31/gen_preview_fixtures.py:352-376 | a standard reader (algorithms 2, 6 and 7 of section 7.6 of ISO 32000-1) opens what is published with the user password and with the owner password, and finds the file key |
| `PdfEncryption.PeeledInvertsLayered` | scripts/p31/gen_preview_fixtures.py:361-364 | the twenty RC4 layers come off in reverse order |
| `PdfEncryption.PasswordEntries` | scripts/p31/gen_preview_fixtures.py:352-376 | the loops compute the published entries and the file key |
| `PdfEncryption.RunHashR6` | scripts/p31/gen_preview_fixtures.py:377-388 | the unbounded loop of the revision 6 hash ends, after at most 287 rounds, with the recursive hash |
| `PdfEncryption.HashIsStandard` | scripts/p31/gen_preview_fixtures.py:377-388 | the sum of the first 16 bytes modulo 3 chooses as the number they write does, and the rounds are those of algorithm 2.B of ISO 32000-2 |
| `PdfEncryption.Entries256` | scripts/p31/gen_preview_fixtures.py:390-400 | a standard reader (algorithm 2.A of ISO 32000-2) validates either password and unwraps the file key from what is published, and under it reads the permissions -3904 |
| `PdfXref.EveryObjectIsReached` | scripts/p31/gen_preview_fixtures.py:482-520 | a reader that starts at the end of the file reaches every object through the table, with or without the appended encryption object, and finds there its number and exactly its serialised body; offsets below 10^10 |
| `PdfXref.LookupFindsObjects` | scripts/p31/gen_preview_fixtures.py:495-520 | startxref gives the table, and the table's entry the offset of the object |
| `PdfXref.LookupFindsNoOther` | scripts/p31/gen_preview_fixtures.py:509-512 | object 0 and every number beyond the table are found nowhere |
| `PdfXref.EntryIsTwentyBytes` | scripts/p31/gen_preview_fixtures.py:512 | an entry is 20 bytes exactly if its offset is below 10^10 (section 7.5.4 of ISO 32000-1) |
| `PdfXref.LiteralRoundTrip` | scripts/p31/gen_preview_fixtures.py:454-455 | a literal string reads back as itself exactly if it holds no carriage return |
| `PdfXref.CarriageReturnIsLost` | scripts/p31/gen_preview_fixtures.py:454-455 | a bare carriage return is written unescaped and reads back as a line feed (section 7.3.4.2 of ISO 32000-1) |
| `PdfXref.LiteralIsThreeReplacements` | scripts/p31/gen_preview_fixtures.py:454-455 | the three chained replacements amount to escaping each special byte once |
| `PdfXref.UnhexInvertsHex` | scripts/p31/gen_preview_fixtures.py:474 | hexadecimal strings read back |
| `PdfXref.Pdf` | scripts/p31/gen_preview_fixtures.py:482-520 | the writer computes that file, or raises where an object cannot be serialised or there is none |
| `PdfXref.WriteObjects` | scripts/p31/gen_preview_fixtures.py:497-508 | the object loop records as offset of each object the length written before it |
| `PdfXref.WriteTable` | scripts/p31/gen_preview_fixtures.py:511-512 | the table loop writes those offsets in order |
| `PdfReader.ValueIsRead` | scripts/p31/gen_preview_fixtures.py:458-479 | whatever value is serialised, however nested, and whatever follows it, a reader (section 7.3 of ISO 32000-1) gets its meaning and stops right after it |
| `PdfReader.EveryObjectIsRead` | scripts/p31/gen_preview_fixtures.py:482-520 | with nothing but the file and an object number, a reader gets the meaning of every value and exactly the bytes of every stream, taken by its /Length, with every other entry of its dictionary; for files up to 10^10 bytes |
| `PdfReader.TrailerIsRead` | scripts/p31/gen_preview_fixtures.py:511-519 | behind the table the reader finds how many objects there are, which one is the root, the identifier and, in an encrypted file, which object is the encryption dictionary |
| `PdfReader.EncryptionIsRead` | scripts/p31/gen_preview_fixtures.py:491-495 | the encryption dictionary is the object after the caller's, and is read although everything else is encrypted |
| `PdfReader.RaisesIff` | scripts/p31/gen_preview_fixtures.py:458-520 | the writer raises exactly if there is no object, or one with a value it has no form for, a text outside Latin-1, or a number its handler does not take |
| `PdfDocument.EncryptedPdf` | scripts/p31/gen_preview_fixtures.py:559-570 | in a file encrypted for two passwords, either of them and nothing else recovers the root, every stream and every value, its strings exactly; it raises exactly for an object that cannot be written or encrypted |
| `PdfDocument.EitherPasswordRecovers` | scripts/p31/gen_preview_fixtures.py:482-520 | the same for any file key and dictionary that either password opens |
| `PdfDocument.NewEncryption` | scripts/p31/gen_preview_fixtures.py:336-400 | under each scheme the dictionary that is published gives a reader with either password the file key |
| `PdfDocument.DictionaryRead` | scripts/p31/gen_preview_fixtures.py:402-440 | a reader of the encryption dictionary finds the scheme, the entries and the permissions |
| `PdfDocument.ValueIsClear` | scripts/p31/gen_preview_fixtures.py:458-479 | every string of an encrypted value, however nested, decrypts to its Latin-1 bytes |
| `TerminalQueue.PushOutputSound` | backend/app/services/terminal_queue.py:49-65 | counters stay exactly what is queued and within bounds; at most one overflow sentinel and no output after it |
| `TerminalQueue.PushControlSound` | backend/app/services/terminal_queue.py:67-77 | the same for control frames |
| `TerminalQueue.TakeSound` | backend/app/services/terminal_queue.py:79-89 | the same for dequeuing |
| `TerminalQueue.ShutSound` | backend/app/services/terminal_queue.py:91-99 | the same for closing, after which only the end mark is queued |
| `TerminalQueue.OutputHeard` | backend/app/services/terminal_queue.py:49-65 | an output is queued unless the channel is closed or has overflowed, and overflows it exactly if too many outputs or bytes wait, counted from what was offered and what was dequeued |
| `TerminalQueue.ControlHeard` | backend/app/services/terminal_queue.py:67-77 | a control frame is queued unless the channel is closed, and refused exactly if as many as its budget wait |
| `TerminalQueue.TakenFromHistory` | backend/app/services/terminal_queue.py:79-89 | what is dequeued is the oldest of what waits |
| `TerminalQueue.CloseFinishes` | backend/app/services/terminal_queue.py:91-99 | closing drops what waits, and nothing follows it |
| `TerminalQueue.BrowserChannel.SendOutput` | backend/app/services/terminal_queue.py:49-65 | the method makes exactly that step and keeps the invariant |
| `TerminalQueue.BrowserChannel.SendControl` | backend/app/services/terminal_queue.py:67-77 | the same, and it raises exactly when closed or over the control budget |
| `TerminalQueue.BrowserChannel.Get` | backend/app/services/terminal_queue.py:79-89 | the same for the dequeued item |
| `TerminalQueue.BrowserChannel.Close` | backend/app/services/terminal_queue.py:91-99 | the same, draining what is queued |
| `Relay.BrowserSeesContiguousOutput` | backend/app/services/terminal_relay.py:36-108 | over every interleaving, what a browser dequeued plus what is queued is a contiguous run of the session's output from its subscription on; it is everything produced until the end of it, unless it was closed, or too much output came while it did not keep up; counters exact; at most one sentinel |
| `Relay.OverflowsIffTooMuch` | backend/app/services/terminal_relay.py:86-108 | over every run, a channel has overflowed exactly if some output was routed to it while it was open and already held as many outputs as its limit, or too many bytes for this one |
| `Relay.RunRefines` | backend/app/services/terminal_relay.py:36-131 | every channel of every run is what its history says: what it was offered, what it dequeued, and whether it was closed |
| `Relay.RunDelivers` | backend/app/services/terminal_relay.py:82-131 | no accepted item is reordered or invented, controls included |
| `Relay.OffersAreContiguous` | backend/app/services/terminal_relay.py:36-64 | a channel is offered exactly the output routed between its subscription and the end of it |
| `Relay.OthersDoNotMatter` | backend/app/services/terminal_relay.py:86-131 | whether and when other browsers drain or close changes neither a browser's state, nor what it dequeued, nor any role |
| `Relay.WriterIsSubscriber` | backend/app/services/terminal_relay.py:36-80 | over every run the writer marker names a current subscriber of its session |
| `Relay.WriterIffKept` | backend/app/services/terminal_relay.py:36-80 | over every run, a client is the writer exactly if it was given the role, by subscribing with the right to write where there was none or by a takeover, and nothing has taken it away since |
| `Relay.TerminalRelay.Subscribe` | backend/app/services/terminal_relay.py:36-52 | the method makes that step and returns the role |
| `Relay.TerminalRelay.Unsubscribe` | backend/app/services/terminal_relay.py:54-64 | the method makes that step: the last subscriber takes the session with it, the writer its marker |
| `Relay.TerminalRelay.Takeover` | backend/app/services/terminal_relay.py:72-80 | the marker moves exactly to a subscriber, otherwise nothing changes |
| `Relay.TerminalRelay.Subscribers` | backend/app/services/terminal_relay.py:82-84 | each subscriber's channel once |
| `Relay.TerminalRelay.RouteOutput` | backend/app/services/terminal_relay.py:86-108 | the loop gives every subscriber of the session the payload and no one else |
| `Relay.TerminalRelay.RouteControl` | backend/app/services/terminal_relay.py:110-131 | the same for control frames |
| `Registry.EveryRunIsSound` | backend/app/services/registry.py:89-143 | over every run: no table exceeds the bound, no waiter is stranded (its entry is on a current connection, or on one being drained), every entry belongs to an open request, old tables are empty, answers are what the daemon replied |
| `Registry.StepKeeps` | backend/app/services/registry.py:215-268 | each step keeps that invariant |
| `Registry.OneOutcome` | backend/app/services/registry.py:249-268 | an outcome is decided once, by the request's own start or resumption, and never changes |
| `Registry.AnsweredIff` | backend/app/services/registry.py:230-268 | over every run, a request has the answer m exactly if it resumed as done and a reply with its id and message m came on its connection after it began, before any other and before the connection was failed |
| `Registry.OfflineIff` | backend/app/services/registry.py:230-268 | over every run, a request is told the node is offline exactly if it began without a connection, or resumed as done after its connection was failed |
| `Registry.OutcomesAreWhatHappened` | backend/app/services/registry.py:230-268 | over every run, each outcome is what the events of that request make it: refusal, answer, failure, timeout, cancellation or failed send, with the admission of every request below the bound |
| `Registry.ReplyResolvesOne` | backend/app/services/registry.py:294-307 | a reply resolves at most one waiter, the one its id names on the current connection, and changes nothing else |
| `Registry.FuturesAreOneShot` | backend/app/services/registry.py:303-318 | a done future is never changed |
| `Registry.NothingLeaks` | backend/app/services/registry.py:264-268 | when all requests have ended every table is empty |
| `Registry.LateRemoveIsHarmless` | backend/app/services/registry.py:105-111 | removing a superseded socket drops neither its replacement nor any request on it |
| `Registry.RetiredForGood` | backend/app/services/registry.py:97-121 | a connection that is out and not being drained stays out with an empty table |
| `Registry.CloseAllLeavesWaiters` | backend/app/services/registry.py:133-143 | with two connections, while the first one's socket is being closed the second is no longer current and still has its waiter |
| `Registry.ReusedIdStrandsTheFirst` | backend/app/services/registry.py:239-242 | a second request under an id in use strands the first: no reply and no failure reaches it |
| `Registry.FailKeepsOthers` | backend/app/services/registry.py:314-318 | failing a table wakes its waiters and no others |
| `Registry.NodeConnectionRegistry.Register` | backend/app/services/registry.py:89-103 | the method makes that step and returns the superseded connection |
| `Registry.NodeConnectionRegistry.Remove` | backend/app/services/registry.py:105-111 | the method makes that step |
| `Registry.NodeConnectionRegistry.Evict` | backend/app/services/registry.py:113-121 | the method makes that step |
| `Registry.NodeConnectionRegistry.StartClosing` | backend/app/services/registry.py:133-137 | up to its first suspension `close_all` takes all connections and fails the waiters of one of them |
| `Registry.NodeConnectionRegistry.StartRequest` | backend/app/services/registry.py:230-242 | a request is refused offline or busy, or its future is entered |
| `Registry.NodeConnectionRegistry.EndRequest` | backend/app/services/registry.py:264-268 | the entry is dropped |
| `Registry.NodeConnectionRegistry.ResolveResponse` | backend/app/services/registry.py:294-307 | the method resolves exactly a waiting future and reports whether it did |
| `Registry.NodeConnectionRegistry.FailPending` | backend/app/services/registry.py:314-318 | the loop fails every waiting future of the connection and clears its table |
| `PreviewStream.AcceptedIsTiled` | backend/app/services/files.py:760-800 | a handle that passes the re-check has 1 to 32 chunks whose lengths tile its size, and dimensions exactly if it is an image |
| `PreviewStream.AcceptedIff` | backend/app/services/files.py:760-800 | exactly the announcements of proper handles are accepted, each as the handle that it announces |
| `PreviewStream.ExtentIs` | backend/app/services/files.py:897-899 | the expected chunk lengths sum to the size, each between 1 and 524288 |
| `PreviewStream.StreamIsPrefix` | backend/app/services/files.py:819-847 | with a node whose data frames for this preview are the chunks they say they are, every stream yields a prefix of the snapshot, and the whole of it if the loop ran out |
| `PreviewStream.StreamLength` | backend/app/services/files.py:819-847 | whatever the node sends, a stream that ran out has exactly the promised number of bytes and no stream more |
| `PreviewStream.ServedIsWhole` | backend/app/services/files.py:819-847 | a stream whose requests are all answered with their chunks in time is the whole snapshot, and says OK |
| `PreviewStream.StopSays` | backend/app/services/files.py:815-856 | every other stream has a chunk for each turn before the one it stopped at, and the ending that this turn asks for |
| `PreviewStream.OkMeansComplete` | backend/app/services/files.py:815-856 | the label OK is a complete body, except exactly when the stopping turn raised something other than an ApiError or carried an error code that reads OK |
| `PreviewStream.OkWithoutABody` | backend/app/services/files.py:827-840 | a request that raises another exception leaves an empty body labelled OK |
| `PreviewStream.Stream` | backend/app/services/files.py:802-856 | the loop yields that body and ending, and counts bytes and chunks exactly |
| `PreviewSlots.EveryRunIsBalanced` | backend/app/services/files.py:163-187 | however opens, generators and abandonments interleave, each counter is the number of outstanding slots and never passes its limit |
| `PreviewSlots.OpenAdmittedIff` | backend/app/services/files.py:172-179 | an open gets a slot exactly while its user and its node have fewer out than they may |
| `PreviewSlots.EntriesAreHeld` | backend/app/services/files.py:181-187 | over every run the counters have an entry for exactly the users and nodes with a slot out |
| `PreviewSlots.ReleasedOnce` | backend/app/services/files.py:232-235 | a slot that was given back is never given back again |
| `PreviewSlots.ReleasedInTheEnd` | backend/app/services/files.py:749-751 | a slot is given back when the open fails, or once the generator is over and an abandonment has returned |
| `PreviewSlots.QuietCountersAreZero` | backend/app/services/files.py:181-187 | with every preview over, both counters are zero |
| `PreviewSlots.AbandonIsNeeded` | backend/app/services/files.py:873-882 | closing a generator that never ran releases nothing; the abandonment after it does |
| `PreviewSlots.PreviewStreams.Acquire` | backend/app/services/files.py:172-179 | a slot is taken exactly if both counters are below their limits |
| `PreviewSlots.PreviewStreams.Release` | backend/app/services/files.py:181-187 | both counters go down, and leave no entry at zero |
| `PreviewSlots.BinaryPreviewStream.ReleaseSlot` | backend/app/services/files.py:232-235 | the flag makes a second call do nothing |
| `Completion.AuditsExactlyOnce` | backend/app/api/middleware.py:50-72 | for every split into messages the audit fires exactly once if the whole body was sent, ending with a nonempty message, with no disconnect seen by then, and otherwise never |
| `Completion.ShortBodyIsNotAudited` | backend/app/api/middleware.py:66-70 | a body cut short is not audited |
| `Completion.StreamIsAuditedIffWhole` | backend/app/api/middleware.py:66-70 | for a preview stream whose client stays, the audit fires exactly if all its bytes were sent |
| `Completion.Wrappers.Send` | backend/app/api/middleware.py:60-70 | the closure makes that step |
| `Completion.Wrappers.Receive` | backend/app/api/middleware.py:53-58 | the closure makes that step |
| `RelPath.AcceptedIffItStaysInside` | backend/app/services/files.py:262-269 | a well-formed path is accepted exactly if no prefix of its segment walk leaves the workspace; the result reaches the same place and has no '..' |
| `RelPath.RejectedUnlessWellFormed` | backend/app/services/files.py:242-261 | every other path is refused for its own reason, the empty path allowed only on request |
| `RelPath.IdempotentUnlessTilde` | backend/app/services/files.py:256-269 | the guard returns its own result unchanged exactly if that does not start with '~' |
| `RelPath.TildeSurfaces` | backend/app/services/files.py:256-269 | './~x' is accepted as '~x', which is refused |
| `RelPath.RunNormPath` | backend/app/services/files.py:262 | normalisation as a loop over a stack |
| `AuditPaging.WalkIsComplete` | backend/app/repositories/audit.py:55-85 | following the cursors over a fixed window while rows are added returns nothing twice, everything that was there at the first page, newest first, and nothing not there at the last |
| `AuditPaging.WalkReturnsWhatWasAsked` | backend/app/repositories/audit.py:40-85 | a row that was there all along is returned exactly if it is in the window and agrees with every filter that was given |
| `AuditPaging.PagesAreTheWindow` | backend/app/services/audit_query.py:161-195 | over a fixed table all pages together are the window in descending order, for any page size of at least 1 |
| `AuditPaging.PageIs` | backend/app/services/audit_query.py:175-195 | a page is the newest rows past its cursor, has a successor exactly if there are more, and the successor selects exactly the rest |
| `AuditPaging.CursorsDecrease` | backend/app/services/audit_query.py:188-195 | each cursor is strictly below the one before |
| `AuditPaging.WindowIsBounded` | backend/app/services/audit_query.py:126-143 | an accepted window has the bounds that were given, ends now and is as long as may be where they were not, and is never longer; one is refused exactly if the given start does not fit |
| `AuditPaging.WindowIsFixedIffEndGiven` | backend/app/services/audit_query.py:137-143 | the window is the same for a later page exactly if its end was given |
| `AuditPaging.ClockedWalkIsComplete` | backend/app/services/audit_query.py:130-195 | with the window resolved again for each page, and `from` or `to` given, an accepted walk of growing tables returns every row of its first window once, newest first, and none from outside it |
| `AuditPaging.NothingLostIff` | backend/app/services/audit_query.py:130-143 | two accepted pages can lose a row exactly if neither bound is given and time passed between them |
| `AuditPaging.SlidingWindowLosesRows` | backend/app/services/audit_query.py:130-143 | two rows and a page size of one, where the second page misses the older row |
| `Base64Cursor.PaddingRestored` | backend/app/services/audit_query.py:76-85 | the padding put back is exactly the padding taken off, for every payload (section 5 of RFC 4648) |
| `Base64Cursor.DecodesFrom` | backend/app/services/audit_query.py:78-86 | the lenient decoder inverts the encoder |
| `Base64Cursor.GroupIsNumber` | backend/app/services/audit_query.py:76-77 | three bytes are written as the four digits, to the base 64, of the number they make (section 4 of RFC 4648) |
| `Base64Cursor.CursorRoundTrip` | backend/app/services/audit_query.py:76-100 | a cursor reads back, given that its JSON does |
| `Sessions.EveryRunIsSound` | backend/app/services/sessions.py:177-485 | over every run: at most one live shell per session, no live shell without a live parent of its owner and node, end times exactly on ended sessions, node and user caps kept |
| `Sessions.CreateMeans` | backend/app/services/sessions.py:177-278 | a creation is done exactly if each of its conditions holds and the node started it, and then adds one running row; where the node refused it adds a failed one, and otherwise nothing |
| `Sessions.OpenMeans` | backend/app/services/sessions.py:280-360 | opening a shell is done exactly if each of its conditions holds and the node started it, and ends exactly the one it replaces |
| `Sessions.TerminateMeans` | backend/app/services/sessions.py:362-430 | a termination is done exactly if the session exists, is running or disconnected, and the node answered; then it is terminated with its live children at this instant and every other row is unchanged; otherwise nothing changes |
| `Sessions.StatusMeans` | backend/app/services/sessions.py:442-462 | a report changes the status exactly along an allowed transition, with end time and children if it ends the session, and otherwise nothing |
| `Sessions.DeleteMeans` | backend/app/services/sessions.py:432-440 | a deletion is done exactly if the session has ended, and takes it and its shells and nothing else |
| `Sessions.EndedForGood` | backend/app/services/sessions.py:42-60 | no event changes an ended session, and every other change of state is an allowed transition or a forced end |
| `Sessions.StatesAgree` | backend/app/services/sessions.py:40-50 | the active states of the repository are exactly the states with a way out |
| `Sessions.OneShellAfterOpening` | backend/app/services/sessions.py:280-360 | opening replaces an unwatched shell: afterwards the new one is the only live child |
| `Sessions.DeleteTakesOnlyEnded` | backend/app/services/sessions.py:432-440 | deleting with its cascade removes only ended sessions |
| `Sessions.EndKeeps` | backend/app/services/sessions.py:390-430 | a session ends together with its shells, which keeps the invariant |
| `Sessions.SessionService.Create` | backend/app/services/sessions.py:177-278 | the checks in order, then a running or a failed row |
| `Sessions.SessionService.OpenShell` | backend/app/services/sessions.py:280-360 | the checks in order, the old shell ended, then `create` |
| `Sessions.SessionService.TerminateChildren` | backend/app/services/sessions.py:393-430 | the loop ends exactly the live children |
| `Sessions.SessionService.Terminate` | backend/app/services/sessions.py:362-391 | terminated with its children, or unchanged |
| `Sessions.SessionService.ApplyStatusChanged` | backend/app/services/sessions.py:442-462 | an allowed transition, with the children if it is terminal, or nothing |
| `Sessions.SessionService.Delete` | backend/app/services/sessions.py:432-440 | only ended sessions are deleted |
| `Tunnels.EveryRunIsBounded` | backend/app/services/tunnels.py:406-526 | over every run with time moving forward every deadline is within the ceiling of now, no two tunnels are live on one port of a node, and fleet, node and user counts stay within the highest limits in force |
| `Tunnels.CreateMeans` | backend/app/services/tunnels.py:406-637 | a request is done exactly if each gate is open, no row of the port is unclosed and the daemon opened the tunnel, and the row is what was asked for; otherwise nothing is added, except behind an unreadable credential |
| `Tunnels.FirstGateAnswers` | backend/app/services/tunnels.py:406-526 | a refused request is told what the first closed gate answers, and changes nothing |
| `Tunnels.EveryPortWasPermitted` | backend/app/services/tunnels.py:406-526 | over every run, each row not closed was created on a port that the policy in force permitted |
| `Tunnels.ForwardedPortIsAllowed` | backend/app/services/tunnels.py:444-449 | under the effective policy such a port is in 1024..65535 and in every layer that supplies a list |
| `Tunnels.CloseMeans` | backend/app/services/tunnels.py:641-645 | a close is done exactly if the tunnel exists; it is closed then, once, and no other row changes |
| `Tunnels.ExtendMeans` | backend/app/services/tunnels.py:647-676 | an extension is done exactly for a live tunnel that can last longer, and gives it exactly that deadline |
| `Tunnels.RotateMeans` | backend/app/services/tunnels.py:678-709 | only a password tunnel is touched: it ends, and a new one for its remaining time is asked for on its port; a crash takes that back and a refusal does not |
| `Tunnels.ReportMeans` | backend/app/services/tunnels.py:772-812 | what each report does to the one row it names |
| `Tunnels.ClosedForNodeMeans` | backend/app/services/tunnels.py:711-723 | exactly the live tunnels of the node are closed, now |
| `Tunnels.EndedForGood` | backend/app/services/tunnels.py:641-745 | a tunnel that was closed or has expired is never live again |
| `Tunnels.NeverShortened` | backend/app/services/tunnels.py:647-676 | no event shortens a deadline or moves a tunnel |
| `Tunnels.StateAgreesWithLive` | backend/app/services/tunnels.py:265-282 | the derived state and the repository's predicate agree on what has ended |
| `Tunnels.CrashesIffExpiredIsUnclosed` | backend/app/services/tunnels.py:495-526 | a request that passed every check violates the unique index exactly if the port still holds an expired tunnel that was never closed |
| `Tunnels.RefusedLeavesARowIff` | backend/app/services/tunnels.py:543-598 | a refused request leaves a row exactly if the paid tier's stored credential could not be read |
| `Tunnels.ExpiredPortCrashes` | backend/app/services/tunnels.py:495-526 | a run after which a port that expired a second ago cannot be forwarded again |
| `Tunnels.UnreadableCredentialLeavesARow` | backend/app/services/tunnels.py:543-598 | a refused request that leaves a live tunnel without a URL |
| `Tunnels.RotationTtlRefusedIff` | backend/app/services/tunnels.py:683-710 | where nothing else is in the way, a rotation's lifetime is refused exactly if what remains is above the ceiling in force, and the old tunnel is closed by then |
| `Tunnels.RotationLosesTheTunnel` | backend/app/services/tunnels.py:683-710 | a run after which rotating a password closes the tunnel and opens none |
| `Tunnels.RotationTtlFits` | backend/app/services/tunnels.py:693-704 | the lifetime a rotation asks for is accepted while the ceiling in force is the highest of the run |
| `Tunnels.ExtendStopsAtCeiling` | backend/app/services/tunnels.py:665-676 | an extension succeeds exactly while the deadline is below the ceiling |
| `Tunnels.ClosedForNodeKeeps` | backend/app/services/tunnels.py:711-723 | closing a node's tunnels leaves none live there |
| `Tunnels.TunnelService.Create` | backend/app/services/tunnels.py:406-637 | the checks in order, then the row, or no row, or the leftover row |
| `Tunnels.TunnelService.Close` | backend/app/services/tunnels.py:641-645 | closes once |
| `Tunnels.TunnelService.Extend` | backend/app/services/tunnels.py:647-676 | the new deadline, or unchanged |
| `Tunnels.TunnelService.RotatePassword` | backend/app/services/tunnels.py:678-709 | the old tunnel ends whatever `create` then does |
| `Tunnels.TunnelService.CloseForNode` | backend/app/services/tunnels.py:711-723 | the loop closes exactly the live tunnels of the node |
| `Tunnels.TunnelService.ApplyStatus` | backend/app/services/tunnels.py:772-812 | a report changes only an unclosed tunnel of its own node |
| `PortPolicy.PolicyPermits` | backend/app/services/tunnels.py:143-228 | a port is permitted exactly if it is in 1024..65535 and every layer that supplies a list has a readable spec containing it |
| `PortPolicy.IntersectIs` | backend/app/services/tunnels.py:169-182 | no list is the identity, and otherwise the ranges intersect as sets |
| `PortPolicy.IntersectLaws` | backend/app/services/tunnels.py:169-182 | commutative, associative and idempotent as sets of ports |
| `PortPolicy.SortedIs` | backend/app/services/tunnels.py:166-182 | the ranges are kept in order, none lost and none added |
| `PortPolicy.UnderscoresRead` | backend/app/services/tunnels.py:155-166 | a number is read with single underscores between its digits and no others |
| `PortPolicy.SignsRead` | backend/app/services/tunnels.py:155-166 | and with a sign |
| `PortPolicy.NarrowingAddsNoPort` | backend/app/services/tunnels.py:208-216 | restricting any layer adds no port |
| `PortPolicy.UnreadableListPermitsNothing` | backend/app/services/tunnels.py:155-166 | in whichever layer, a list in which nothing can be read permits nothing |
| `PortPolicy.BlockedByFirstRefusal` | backend/app/services/tunnels.py:198-206 | the layer named is the first that refuses |
| `PortPolicy.CapIsLeast` | backend/app/services/tunnels.py:218-221 | the cap is the least of the caps that are positive |
| `PortPolicy.RestrictingNeverRaisesTheCap` | backend/app/services/tunnels.py:218-221 | supplying or lowering the cap of the node's settings, of its report or of both never raises the effective cap |
| `PortPolicy.RestrictingRaisesIff` | backend/app/services/tunnels.py:218-221 | for any list of caps, restricting one raises the least exactly if the new one is not positive and the old one was the one that bound |
| `PortPolicy.StoredCapsAreProper` | backend/app/services/integrations.py:319-328 | a cap that is stored or reported is none or positive, and zero is refused |
| `PortPolicy.StoredCapIs` | backend/app/services/integrations.py:319-328 | what is stored is the given cap exactly from 1 to 100, nothing after a clearing and otherwise what was there; a reported cap counts exactly if positive |
| `PortPolicy.DisplayReadsBack` | backend/app/services/tunnels.py:138-140 | a displayed range reads back as itself |
| `Evidence.AcceptedIsSound` | scripts/traceability/evidence.py:111-202 | with a clean validator and an accepted snapshot every active criterion that must hold is proven, or absorbed by another of its requirement that is proven itself |
| `Evidence.AcceptedIff` | scripts/traceability/evidence.py:111-202 | the release is accepted exactly if the results are valid and every active criterion that must hold is proven or absorbed |
| `Evidence.VerifiedIffProven` | scripts/traceability/evidence.py:119-171 | the verdict verified is exactly: a primary link of every required type, at least one gated piece of evidence, and behind each a gate that passed, ran the selector and executed every declared leg |
| `Evidence.VerdictsMean` | scripts/traceability/evidence.py:119-171 | each other verdict names exactly the first thing that a proof lacks |
| `Evidence.RequiredIff` | scripts/traceability/validate.py:429-442 | link type by link type, which criteria must have one |
| `Evidence.EveryGateIsDeclared` | scripts/traceability/validate.py:257-267 | under a clean validator every gate behind the evidence is declared |
| `Evidence.Snapshot` | scripts/traceability/evidence.py:111-202 | the loop gives each row that verdict and accepts exactly if nothing blocks and the results are valid |
| `Evidence.ValidateGateResults` | scripts/traceability/evidence.py:55-104 | no error exactly if all gates are known and distinct, their legs accounted for, artifacts intact and skips explained |
| `Evidence.EnvironmentErrors` | scripts/traceability/evidence.py:19-44 | exactly one kind of error for each leg not reported, not declared or in an unknown state |
| `Evidence.ClassificationFindings` | scripts/traceability/validate.py:87-161 | no finding exactly if an absorbed criterion names another, active and verifiable one of its requirement and is reviewed |
| `Evidence.Coverage` | scripts/traceability/validate.py:446-496 | the loops give one row for each active criterion, in order |
| `Evidence.CoverageContains` | scripts/traceability/validate.py:457-496 | no active criterion is left out |
| `Bootstrap.CleaningUndoesInjectionIff` | scripts/traceability/bootstrap.py:435-475 | cleaning the injected file gives the cleaned original exactly if no section has a hundred criteria and a line is left |
| `Bootstrap.InjectingTwiceIsOnce` | scripts/traceability/bootstrap.py:435-475 | with at most 99 criteria in each section injecting twice is injecting once |
| `Bootstrap.CriterionInjective` | scripts/traceability/bootstrap.py:455-463 | a criterion's anchor names its requirement and its number, for all requirements and numbers |
| `Bootstrap.PlacedDistinct` | scripts/traceability/bootstrap.py:442-463 | where no requirement has two headings, no anchor is placed twice |
| `Bootstrap.PlacedIff` | scripts/traceability/bootstrap.py:442-463 | in front of a line stand exactly the anchors that some heading asks for there, its own or that of its n-th criterion; it fails exactly if a section has no candidate |
| `Bootstrap.InjectedAnchorsReadBack` | scripts/traceability/bootstrap.py:442-473 | where no requirement has two headings and no line defines an anchor itself, every injected anchor reads as the text of the line it was put in front of, if that is no comment and holds no anchor |
| `Bootstrap.CriterionMatchesIff` | scripts/traceability/bootstrap.py:457-460 | a criterion's anchor is recognised exactly up to number 99 |
| `Bootstrap.HeadingIdIff` | scripts/traceability/bootstrap.py:11-13 | a line is a requirement's heading exactly if it is two number signs, its id and a title |
| `Bootstrap.CriteriaAreTargets` | scripts/traceability/bootstrap.py:389-432 | the lines chosen for criteria are neither blank nor headings |
| `Bootstrap.CriterionIndices` | scripts/traceability/bootstrap.py:389-432 | the loops return the candidates of the section in order |
| `Bootstrap.CandidatesAre` | scripts/traceability/bootstrap.py:396-421 | every line that is a candidate is listed, no other is, and they are in order |
| `Bootstrap.TableBodyIff` | scripts/traceability/bootstrap.py:406-419 | a table's body is open exactly if there was a rule and since then, outside fences, only rows and blank lines |
| `Bootstrap.BulletIff` | scripts/traceability/bootstrap.py:410 | a bullet is a star and a space, or digits, a full stop and a space, and then more |
| `Bootstrap.OutsideFence` | scripts/traceability/bootstrap.py:377-386 | a line is outside exactly if it is no fence and no fence is open before it |
| `Bootstrap.FencedIffOdd` | scripts/traceability/bootstrap.py:377-386 | a fence is open exactly after an odd number of fence lines |
| `Bootstrap.RunInjectPrimary` | scripts/traceability/bootstrap.py:435-475 | the loops compute that injection |
| `NumberedAnchors.NumberedInjectionIsReversibleIff` | scripts/traceability/bootstrap.py:478-524 | for a numbered section cleaning undoes the injection exactly if no number has more digits than the pattern, and then it is idempotent |
| `NumberedAnchors.PlacedIff` | scripts/traceability/bootstrap.py:492-514 | exactly the numbered lines between the two headings, outside fences, get anchors, which carry the line's number |
| `NumberedAnchors.ItemNumberIff` | scripts/traceability/bootstrap.py:497 | a line is numbered exactly if it is digits, a full stop, a space and more |
| `AnchorInjection.CleaningUndoesWeavingIff` | scripts/traceability/bootstrap.py:369-374 | cleaning gives back the lines exactly if every woven anchor matches the pattern |
| `AnchorInjection.CleanedFileIff` | scripts/traceability/bootstrap.py:470-474 | the same through the text of the file, where no line becomes one empty line |
| `AnchorInjection.AnchorsReadBack` | scripts/traceability/model.py:109-137 | the reader gives every woven anchor the text of its line |
| `AnchorReader.MarkdownAnchors` | scripts/traceability/model.py:109-137 | the loop computes the recursive reader |
| `AnchorReader.AnchorsAre` | scripts/traceability/model.py:109-137 | an anchor that is defined reads as the first line after its last definition that anchors point at, or as itself if there is none; any other is one exactly if it is the slug of a heading, and reads as the title of the first |
| `AnchorReader.AnchorIff` | scripts/traceability/model.py:114 | an explicit anchor is found exactly where the text has its form |
| `AnchorReader.HeadingIff` | scripts/traceability/model.py:115 | a heading is one to six number signs, white space and at least one more character, and its title what comes after them |
| `AnchorReader.OnlyMarkersGo` | scripts/traceability/model.py:131 | nothing is taken off a line but a list marker and the white space after it |
| `AnchorReader.KeepsText` | scripts/traceability/model.py:116-137 | an anchor keeps its text unless a later line defines it again |
| `Redaction.NoSecretIsStored` | backend/app/logging.py:58-137 | for every payload, under a sensitive key at any depth there is only the mask, None, a boolean or a number, and every stored string is masked |
| `Redaction.SensitiveIff` | backend/app/logging.py:58-60 | a key is sensitive exactly if one of fourteen markers stands somewhere in it |
| `Redaction.SensitiveIsMasked` | backend/app/logging.py:82-99 | under a sensitive key whatever could carry a secret becomes the mask |
| `Redaction.InnocuousIsKept` | backend/app/logging.py:82-99 | what is reached through innocuous keys within the depth is kept, its strings masked |
| `Redaction.StoredEntry` | backend/app/logging.py:102-137 | what is stored of each entry: kept, cut, masked or dropped, and when |
| `Redaction.LengthIs` | backend/app/logging.py:116-137 | the lengths the bound works with are those of the JSON text |
| `Redaction.CharsRead` | backend/app/logging.py:116-137 | a reader of JSON strings (section 7 of RFC 8259) gets back exactly the characters that were written |
| `Redaction.RedactMappingTwice` | backend/app/logging.py:102-137 | redacting twice is redacting once, given that the string mask is idempotent and leaves the marker alone |
| `Redaction.RedactingTwice` | backend/app/logging.py:82-99 | the same for the recursion, at every depth |
| `Redaction.CutStringsOverflow` | backend/app/logging.py:121-127 | a string over the cap makes the whole payload overflow even after it was cut |
| `Redaction.NothingIsShortened` | backend/app/logging.py:116-137 | so either nothing was shortened, or only numbers, booleans and the mask are left |
| `Redaction.Bound` | backend/app/logging.py:116-137 | the loop computes that bounded payload |
| `Reaper.OneTimerPerShell` | backend/app/services/shell_reaper.py:41-60 | a shell has at most one timer, over every run that schedules nothing for a shell whose cancelled timer is still to be collected |
| `Reaper.ReapedIff` | backend/app/services/shell_reaper.py:45-97 | over every settled run, a shell was terminated exactly if its timer woke, found nobody watching, and the node stopped it |
| `Reaper.ArmedIsHolder` | backend/app/services/shell_reaper.py:41-60 | over every settled run, the timers that are armed are those that would be if each callback knew its own |
| `Reaper.TimerEndsIff` | backend/app/services/shell_reaper.py:62-100 | a timer ends exactly with its first round that does not retry, or the fifth |
| `Reaper.CallbackForgetsIff` | backend/app/services/shell_reaper.py:60 | a done-callback forgets a timer not its own exactly if its shell was armed again |
| `Reaper.SettlingIsExact` | backend/app/services/shell_reaper.py:45-60 | in any world of a settled run, scheduling keeps one timer per shell for good exactly if no cancelled timer of that shell is still to be collected |
| `Reaper.UnsettledRunHasTwoTimers` | backend/app/services/shell_reaper.py:45-60 | scheduling between `cancel_all` and the callbacks can end with two timers for one shell |
| `Reaper.WakingEndsOrCounts` | backend/app/services/shell_reaper.py:64-97 | a timer ends within five attempts |
| `Reaper.OnlyUnwatchedAreReaped` | backend/app/services/shell_reaper.py:45-97 | over every settled run, a shell is terminated only by a timer that was armed for it, was not dropped by a `cancel_all` since, and found nobody watching |
| `Reaper.ShellReaper.Schedule` | backend/app/services/shell_reaper.py:45-60 | an armed timer is left alone |
| `Reaper.ShellReaper.Forget` | backend/app/services/shell_reaper.py:60 | the callback drops whatever timer the shell has |
| `Reaper.ShellReaper.CancelAll` | backend/app/services/shell_reaper.py:127-133 | every timer is cancelled and forgotten |
| `Reaper.ShellReaper.Reap` | backend/app/services/shell_reaper.py:62-100 | the first round that does not retry decides |
| `Auth.RefreshIsSingleUse` | backend/app/services/auth.py:86-100 | of two refreshes with the same claims at most one succeeds, whatever happens between them |
| `Auth.AcceptedIff` | backend/app/services/auth.py:58-104 | over every run, a token that was handed out is accepted exactly as long as its user is active and neither a logout nor a refresh of his has come since |
| `Auth.LoginIff` | backend/app/services/auth.py:58-75 | over every run, a login hands out a token exactly for the right password of a user who is known and active |
| `Auth.LogoutRevokes` | backend/app/services/auth.py:102-104 | a token handed out before a logout is refused after it |
| `Auth.RefreshRevokesOthers` | backend/app/services/auth.py:94-100 | a refresh refuses every other outstanding token of the user |
| `Auth.AuthService.Refresh` | backend/app/services/auth.py:86-100 | the method makes that step and returns the token |
| `Auth.AuthService.Login` | backend/app/services/auth.py:58-75 | the method makes that step and returns the token, changing nothing |
| `Auth.AuthService.Logout` | backend/app/services/auth.py:102-104 | the version moves on |

## Left out

- JpegFile.JpegFlat: widths, heights and orientations that do not fit 16 bits, for which `struct.pack` raises, are excluded.
- GifLzw.Write: indices above 3, which a two-bit palette does not have, are excluded.
- PdfXref.Pdf: objects are a list numbered from 1, as the docstring asks of callers; a gap in the numbers, which raises, is not modelled. Names and dictionary keys are bytes already encoded, and a float is its text.
- PdfReader.EveryObjectIsRead: names and keys are written in regular bytes, as the fixtures' are, since the writer escapes none and no reader could tell them apart; raw bytes are one string, and the text of a float is not that of an integer. Streams with an indirect length, which the writer never makes.
- PdfDocument.EncryptedPdf: values with raw bytes inside are not among those recovered, because the writer does not encrypt them and a reader would decrypt them; the pages of the fixture are any objects.
- PdfEncryption.EitherPasswordOpens: only for revision 2 with keys of 5 bytes and revision 4 with keys of 16, which are all that `Encryption` asks for.
- PdfEncryption.Entries256: MD5, SHA-256, SHA-384 and SHA-512 themselves.
- AesCbc.AesCbc: without padding the data must be whole blocks, which the source asserts.
- Registry.EveryRunIsSound: request ids are new for every request, as `new_request_id` makes them; `ReusedIdStrandsTheFirst` shows what a used one does. Heartbeats, resources and the send lock.
- Relay.BrowserSeesContiguousOutput: every connection brings its own new channel, as the terminal WebSocket does. Metrics, user ids and the shutdown announcement.
- PreviewStream.Stream: that a generator nobody closes stays suspended; the close at its end is taken as never raising, and only its suspension is modelled, in `PreviewSlots`. `bool` is not taken for `int` in a payload.
- PreviewStream.StreamIsPrefix: that the node answers a chunk request with the bytes of its snapshot is a hypothesis; `StreamLength` does without it.
- Completion.AuditsExactlyOnce: the audit itself, and requests that are not HTTP.
- AuditPaging.ClockedWalkIsComplete: filtering and ordering by the database are sets and lists of rows; display names, action names and limits are not checked. A walk that is refused half way, for a span that has grown too long, has no end to be complete at.
- Base64Cursor.CursorRoundTrip: the JSON payload and the time format are a pair of functions with the stated inverse.
- Sessions.EveryRunIsSound: each request is one serial transaction. Opening a shell ends the live children of the parent, of which the source looks up the first and the invariant allows only one. Whether a workspace lies in an allowed root is a flag; names, sizes beyond their range check, process ids, exit codes and audit rows are left out.
- Tunnels.EveryRunIsBounded: each request is one serial transaction at one instant. Passwords, labels, IP parsing, third-party wording and audit rows are left out.
- PortPolicy.PolicyPermits: digits and white space inside a port number are those Python reads, except digits outside ASCII.
- Evidence.AcceptedIsSound: schema validation, file paths, digests and the clock of waivers; waivers do not enter the snapshot's verdict. Of the static findings only those the verdict relies on.
- Evidence.ValidateGateResults: whether a result meets the schema, names the commit and has its artifacts is a flag of each result, because the schema language and the files are outside the model.
- Bootstrap.InjectedAnchorsReadBack: that no line of the file defines one of the injected anchors itself is a hypothesis; that they differ from each other is proved from the headings. `\d` outside ASCII.
- Redaction.NoSecretIsStored: keys are strings, characters are Unicode scalar values, and a number is its JSON text.
- Reaper.OneTimerPerShell: an attempt is one step; a cancellation in the middle of it is seen at the next one.
- Auth.RefreshIsSingleUse: password hashing, signatures, expiry and access tokens.
- Sockets, routes, migrations and the database engine; file reads and writes.
- Prototypes, front end, render and performance scripts: display and measurement.
- `metrics.py`, `releases.py`, `enrollment.py`, `ws_ticket.py`, `codec.py`: counters, lookups and field checks, each settled by reading one short function.
- `node_update.py`: its stated ordering is not what its code does.
- The remaining fixtures (PNG, CJK, JPX and damaged PDF files): fixed byte strings.
