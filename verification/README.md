# UNICENS daemon: a verified model

This project models the parts of the UNICENS daemon for Linux that hold state, loops or pointers, and proves what they
promise. `dafny verify dfyconfig.toml` checks all of it.

**Mini-XML** (`libraries/mxml/`).
`MxmlNode.Node` is the node with its five links. `Forests` and `Preorder` say in terms of child sequences what the links
stand for: a set of trees and its document order. On top of that stand adding and removing (`MxmlNode`), walking and searching
(`MxmlSearch`), and the index: quicksort in place (`IndexSort`), bisection on values (`IndexSearch`), both on an index object over
linked nodes (`MxmlIndex`). `XmlText` and `XmlReader` define the writer and the loader on tree values; `MxmlSave`, and `MxmlScan` with
`MxmlSpine` and `MxmlLoad`, are the C loops over linked nodes, bounded buffers and a growing buffer, proved equal to them.
`Utf8`, `Entities`, `Attributes`, `RoundTrip`, `WordRoundTrip` and `TreeRoundTrip` lead to print-then-parse on values,
`LoadForm` shows for which trees it holds, and `MxmlRoundTrip` composes it for linked nodes. `LoadErrors`, `CharRefs` and `Margin`
state laws on other texts, on character references and on the lines of the output. The standards behind it are sections 2.3, 2.4, 3.1 and 4.6 of XML 1.0 (Fifth
Edition) and section 3 of RFC 3629.

**Reprogramming of conflicting nodes** (`src/custom-programming.c` and `libraries/ucsi/ucsi_impl.c`).
`Reprogram` holds the choice of a new identity and the run of rounds, `Programming` the collection of signatures, `Crc` and
`IdentString` the string that is flashed.

**Threads** (`src/task-unicens.c`, `libraries/cdev-handler/CdevHandler.c`).
`Threads` is a state machine with one step for each access of the main loop, the reader thread and the timer threads
to a shared variable or a semaphore, under sequential consistency.

**Command queue and dispatcher** (`libraries/ucsi/ucsi_impl.c`).
`RingBuffer.Ring` is the ring with 32-bit counters, `Dispatcher.Ucsi` the dispatcher with the callbacks of the stack as steps of
their own. Its whole state is also a value, with one function for each step; a ghost log of it keeps every command that was ever
enqueued and every result that was ever reported. `ModeLaws` tells from the events of a run which mode is wanted and which commands
come into the queue.

**From XML to C source** (`libraries/ucs-xml/`, `tool/xml2struct/Xml2Struct.c`).
`JobList` is the linked list of jobs, `Sockets` the builder of job lists, `Routes` the counting and filling of
routes, `VariableNames` and `Generator` the names and the order of the generated declarations.

Some properties hold only under a condition. For these the condition is proved to be exact, or an input that fails is given:

- A lookup by value alone in an index over several element names can miss nodes, because the bisection compares values that are not
  in order there (`IndexSearch.ReliableIff`). The documentation of `mxmlIndexFind` does not mention it.
- An attribute value that is not a sequence of accepted characters, or that contains U+FEFF, does not come back
  (`RoundTrip.ValueReadsBack`).
- Neighbouring text nodes of which the second has no white space flag, and empty ones that are not before a tag, do not come
  back (`LoadForm.ComesBackIff`).
- A line of a tag with several attributes may be one column longer than the wrap margin (`Margin.LineFits`).
- `mxmlAdd` with a reference child that is the node itself, or a parent at or below the node, leaves links that are no
  document (`MxmlNode.SelfNeighbour`, `MxmlNode.AddedCycle`).
- A source that is a splitter whose first network socket is refused goes unnoticed and yields a job list that is out of order
  (`Sockets.Parser.ParsePair`, `Sockets.RefusalUnnoticed`) and objects that the generator cannot print (`Generator.BuiltIsGraph`).
- Receive data that UNICENS refuses leaves the main loop blocked with the data flagged (`Threads.RefusalBlocks`).
- Messages of 256 bytes or more keep the checksum loop going for ever (`Crc.LoopEndsIff`), and so do 256 taken names in the
  generator (`Generator.LoopEndsIff`); one taken name is enough when the prefix has 63 characters or more, because all names are
  cut to the same then (`VariableNames.CandidateCut`).
- With 2^16 routes or more the 16-bit count and the routes disagree (`Routes.ParseRoutes`).
- A MAC conflict alone writes address 0xCCCC, which can create an address conflict; the run still ends
  (`Reprogram.ConflictsGone`, `Reprogram.RoundDescends`).

`assert` is not part of the behaviour: the release build defines `NDEBUG` (CMakeLists.txt:9).

## Model

| member | source | states |
|---|---|---|
| `Utf8.GetcEncode` | libraries/mxml/mxml-file.c:2360-2605 | decoding inverts encoding: reading the bytes that the growing buffer receives for any accepted code point, up to 0x1FFFFF, gives that code point and leaves the rest of the input |
| `Utf8.EncodeGetc` | libraries/mxml/mxml-file.c:2377-2515 | the converse: what was read is its own encoding, so overlong forms and stray continuation bytes are never accepted |
| `Entities.TableAscending` | libraries/mxml/mxml-entity.c:152-411 | all 257 entity names of the C array are strictly ascending in strcmp order, which the binary search relies on |
| `Entities.EntityCb` | libraries/mxml/mxml-entity.c:141-444 | the binary search that narrows to two neighbours and then tests both returns what a linear search of the ascending table returns, for every name |
| `Entities.LookupAt` | libraries/mxml/mxml-entity.c:141-444 | every name in the table is found with its own value |
| `Entities.LookupMissing` | libraries/mxml/mxml-entity.c:141-444 | a name that is not in the table gives -1 |
| `Entities.EntityNameLookup` | libraries/mxml/mxml-entity.c:60-79 | every name that the writer uses for a character is in the reader's table with that character as its value |
| `Attributes.FindAttr` | libraries/mxml/mxml-attr.c:102-145 | the lookup loop returns the value under the name, or nothing |
| `Attributes.StoreAttr` | libraries/mxml/mxml-attr.c:248-311 | the store loop overwrites the value under a name that is there and appends a new name otherwise |
| `Attributes.GetAfterSet` | libraries/mxml/mxml-attr.c:248-311 | storing changes what is found under that name and under no other |
| `Attributes.SetKeepsDistinct` | libraries/mxml/mxml-attr.c:248-311 | names stay distinct |
| `MxmlNode.Node.constructor` | libraries/mxml/mxml-node.c:791-837 | a node without a parent has no links |
| `MxmlNode.Remove` | libraries/mxml/mxml-node.c:600-656 | on every well linked document the pointer assignments of mxmlRemove turn the linked nodes into those of the document without the node under its parent: all five links of every node are as its place in the child sequences says, and the node has none |
| `MxmlNode.Add` | libraries/mxml/mxml-node.c:45-168 | for every position and reference child, mxmlAdd first removes the node and then puts it at the chosen place of the child sequence; all links of all nodes represent the new document. With the node as its own reference child it ends up as its own neighbour |
| `MxmlNode.NewNode` | libraries/mxml/mxml-node.c:791-837 | a new node is linked as the last child and nothing else moves |
| `MxmlNode.AddedRanked` | libraries/mxml/mxml-node.c:45-168 | adding a node anywhere outside its own subtree creates no cycle |
| `MxmlNode.AddedCycle` | libraries/mxml/mxml-node.c:45-168 | adding it at or below itself always creates one: together with the line above, the exact condition |
| `MxmlNode.SelfNeighbour` | libraries/mxml/mxml-node.c:86-158 | a node that is its own neighbour is part of no document: the exact condition on the reference child |
| `Preorder.PreMembers` | libraries/mxml/mxml-search.c:211-237 | the document order of a node lists exactly the nodes at or below it |
| `Preorder.PreNoDup` | libraries/mxml/mxml-search.c:211-237 | and each of them once |
| `Preorder.FrontRest` | libraries/mxml/mxml-search.c:211-277 | what comes before a node, the node and what comes after it make up the document order of its ancestor |
| `MxmlSearch.WalkNext` | libraries/mxml/mxml-search.c:211-237 | with descend the result is the head of what comes after the node in document order below top, and the tail is what comes after the result, so iterating it lists every proper descendant of top once and stops; without descend the same for what comes after the node's subtree |
| `MxmlSearch.WalkPrev` | libraries/mxml/mxml-search.c:249-277 | with descend the node before in document order, unless that is top; without, the preceding sibling or the parent below top |
| `MxmlSearch.PrevInvertsNext` | libraries/mxml/mxml-search.c:249-277 | mxmlWalkPrev undoes mxmlWalkNext on every step that does not start at top |
| `MxmlSearch.MatchesIs` | libraries/mxml/mxml-search.c:49-112 | a node matches if it is an element of the name that is asked for, if any, and has the attribute, if any, with the value, if any |
| `MxmlSearch.FindDescending` | libraries/mxml/mxml-search.c:41-111 | through the whole tree, the result is the first match after the node, and the matches after the result are the remaining ones, so iterating lists exactly the matching descendants in document order |
| `MxmlSearch.FindSibling` | libraries/mxml/mxml-search.c:41-111 | with MXML_DESCEND_FIRST or MXML_NO_DESCEND, the first match among the first visited node and its following siblings |
| `MxmlSearch.FindElement` | libraries/mxml/mxml-search.c:41-111 | mxmlFindElement with its argument tests: with MXML_DESCEND the next match of the whole tree, otherwise the first match among the first visited node and its following siblings |
| `IndexSort.Compare` | libraries/mxml/mxml-index.c:501-532 | the comparison loop computes the order by element name and then by attribute value |
| `IndexSort.Sort` | libraries/mxml/mxml-index.c:583-654 | terminates and leaves the range an ordered permutation of itself with nothing outside touched, whatever keys are equal |
| `MxmlIndex.Index.Reset` | libraries/mxml/mxml-index.c:466-495 | the position goes back to the start |
| `MxmlIndex.Index.Enum` | libraries/mxml/mxml-index.c:71-89 | repeated calls run through the nodes in index order and then return null |
| `MxmlIndex.Collect` | libraries/mxml/mxml-index.c:308-445 | the growing array receives exactly the nodes of the subtree that are wanted, in document order |
| `MxmlIndex.CollectedNoDup` | libraries/mxml/mxml-index.c:308-445 | and none twice |
| `MxmlIndex.IndexNew` | libraries/mxml/mxml-index.c:308-454 | a new index holds the collected nodes in sorted order, and the document is as before |
| `MxmlIndex.IndexFind` | libraries/mxml/mxml-index.c:101-270 | the loops of mxmlIndexFind over the node array, with its bisection, the way back to the first of a run and the position that the next call goes on from, compute the specified position and state |
| `IndexSearch.FoundAll` | libraries/mxml/mxml-index.c:101-270 | repeated lookups that name the element, and all lookups in an index of one element name, return the positions of all hits, each once and in index order |
| `IndexSearch.NothingForever` | libraries/mxml/mxml-index.c:101-270 | once a lookup has returned nothing it does so forever |
| `IndexSearch.ReliableIff` | libraries/mxml/mxml-index.c:101-270 | the exact condition: lookups by value find every hit on every sorted index of the kind if and only if the element is named or the index is one for a single element name |
| `MxmlIndex.HitsAreMatches` | libraries/mxml/mxml-index.c:540-573 | the hits of a sorted arrangement of the collected nodes are the nodes that a plain scan matches, once each |
| `MxmlIndex.IndexAgrees` | libraries/mxml/mxml-index.c:101-270 | for such lookups what repeated mxmlIndexFind will return is, as a set without repetitions, what the scan of the document matches |
| `MxmlIndex.FindEach` | libraries/mxml/mxml-index.c:101-270 | mxmlIndexReset and then mxmlIndexFind until it returns null: the matching nodes of the index in index order, which are every match of the document once and nothing else; the index stays as it is apart from its position |
| `MxmlSave.Sink.Putc` | libraries/mxml/mxml-file.c:2613-2627 | the buffer holds the longest prefix that fits while every character is counted |
| `MxmlSave.WriteString` | libraries/mxml/mxml-file.c:2995-3027 | the escaped string is put out |
| `MxmlSave.WriteName` | libraries/mxml/mxml-file.c:2635-2701 | the name is put out as it is, or between its quotes with entities |
| `MxmlSave.WriteAttributes` | libraries/mxml/mxml-file.c:2762-2802 | all attributes with the line breaks that the wrap margin asks for, and the column |
| `MxmlSave.WriteTree` | libraries/mxml/mxml-file.c:2710-2987 | the writer without a stack, which follows the links of a node without a next sibling, puts out exactly the text of the recursive definition, and the column after it |
| `MxmlSave.NeverBack` | libraries/mxml/mxml-file.c:2951-2980 | no way up from what follows the subtree of a node leads back to the node, so a walk that goes on to a next sibling misses its only exit and ends above the root |
| `MxmlSave.SaveString` | libraries/mxml/mxml-file.c:362-400 | the buffer holds the longest prefix of the complete text that leaves room for the terminator, the terminator, and behind it what it held before; the length returned is that of the complete text |
| `MxmlSave.SaveAllocString` | libraries/mxml/mxml-file.c:214-257 | the complete text, whether or not it fits the first buffer |
| `MxmlSave.WholeIsText` | libraries/mxml/mxml-file.c:362-400 | the complete text is that of the tree which the linked nodes stand for |
| `Margin.NodeLine` | libraries/mxml/mxml-file.c:2710-2987 | the column that the writer counts is the length of the line that its output ends in, for every tree of texts that need no escapes and no line breaks |
| `Margin.MarginKept` | libraries/mxml/mxml-file.c:2768-2784 | an attribute goes into the next line if and only if its end would lie more than one column past the margin |
| `Margin.LineFits` | libraries/mxml/mxml-file.c:2768-2784 | no line of a tag is longer than the margin and one column, unless it holds one attribute only |
| `Margin.TextBreaks` | libraries/mxml/mxml-file.c:2900-2921 | in front of a text white space is a line break exactly if the line has passed the margin, and nothing at the start of a line |
| `Margin.SavedEnds` | libraries/mxml/mxml-file.c:362-400 | a saved text ends at the start of a line |
| `MxmlScan.CharBuffer.AddChar` | libraries/mxml/mxml-file.c:591-663 | the encoding of the character is appended, and the buffer keeps room for the longest encoding and a terminator |
| `MxmlScan.CharBuffer.Grow` | libraries/mxml/mxml-file.c:599-617 | doubling below 1024 bytes and steps of 1024 from there on keep the text |
| `MxmlScan.ReadEntity` | libraries/mxml/mxml-file.c:1320-1373 | the name gathered in 64 bytes and its value agree with the specification, for every input |
| `MxmlScan.ReadTag` | libraries/mxml/mxml-file.c:1556-1590 | the same for the word after '<' |
| `MxmlScan.ReadAttr` | libraries/mxml/mxml-file.c:2133-2345 | the same for one round of the loop over attributes |
| `MxmlScan.ParseTag` | libraries/mxml/mxml-file.c:2093-2353 | the same for a whole tag: the attributes end up in the node |
| `MxmlSpine.GrowSpine` | libraries/mxml/mxml-file.c:1944-2015 | a node added below the innermost open element changes the tree that the linked nodes stand for by just that node |
| `MxmlSpine.CloseSpells` | libraries/mxml/mxml-file.c:1896-1937 | the parent pointer set back to the parent stands for the innermost open element being finished |
| `MxmlLoad.StartTag` | libraries/mxml/mxml-file.c:1940-2015 | an opening tag does to the linked nodes what the specification does to the value: node appended, attributes read, parent moved or not |
| `MxmlLoad.EndTag` | libraries/mxml/mxml-file.c:1896-1937 | an end tag must have the name of the innermost open element and moves the parent pointer up |
| `MxmlLoad.AtEnd` | libraries/mxml/mxml-file.c:2044-2085 | the root is returned unless an end tag other than its own is missing |
| `MxmlLoad.LoadString` | libraries/mxml/mxml-file.c:1381-2085 | the loader on linked nodes returns nodes that represent the specified tree, or null exactly when the specification says so, for every input that is modelled; the rows below say what the specified tree is |
| `RoundTrip.DefaultEntities` | libraries/mxml/mxml-entity.c:141-444 | the default entity callback knows all names that the writer uses |
| `RoundTrip.ValueReadsBack` | libraries/mxml/mxml-file.c:2253-2269 | an escaped attribute value reads back as the same bytes if and only if it is the concatenation of the encodings of some accepted characters, which excludes U+FEFF |
| `RoundTrip.EscapedSafe` | libraries/mxml/mxml-file.c:2995-3027 | what is written escaped holds no angle bracket and no quote, and an ampersand only at the start of an entity |
| `TreeRoundTrip.AsciiNamesOk` | libraries/mxml/mxml-file.c:2635-2701 | ASCII names of XML 1.0 are exchanged unchanged |
| `TreeRoundTrip.LoadNode` | libraries/mxml/mxml-file.c:1381-2085 | loading a printed element with its words, white space and elements adds exactly that element, in any open element and whatever text follows |
| `TreeRoundTrip.PrintThenParse` | libraries/mxml/mxml-file.c:1381-2085 | print, then parse, is the identity for every wrap margin: for every tree of elements with such names, distinct attribute names and readable values, in which words of accepted characters may stand between the tags, each behind another one with its white space flag set, and at most one empty white space text at the end of such words |
| `MxmlRoundTrip.SaveThenLoad` | libraries/mxml/mxml-file.c:184-257 | the same on linked nodes, with texts between the tags: mxmlSaveAllocString and then mxmlLoadString give linked nodes with the value of the original |
| `WordRoundTrip.LoadWord` | libraries/mxml/mxml-file.c:2017-2042 | a printed word is gathered as that word, in any state of the loader |
| `LoadForm.LoadedIsNormal` | libraries/mxml/mxml-file.c:1433-1547 | every tree that is loaded from any text is in normal form: behind a word of the same element a word has its white space flag set, an empty text is white space, and nothing but a tag comes behind it |
| `LoadForm.ComesBackIff` | libraries/mxml/mxml-file.c:1381-2085 | of the trees with such names, attributes and words exactly those in normal form come back from print-then-parse |
| `LoadErrors.AroundRoot` | libraries/mxml/mxml-file.c:1433-1547 | text before and after the root is ignored |
| `LoadErrors.SecondRoot` | libraries/mxml/mxml-file.c:1945-1954 | a second element beside the root is an error |
| `LoadErrors.WrongEnd` | libraries/mxml/mxml-file.c:1898-1912 | an end tag for another name than that of the innermost open element is an error |
| `LoadErrors.MissingEnd` | libraries/mxml/mxml-file.c:2050-2072 | without its end tag the root is returned, with all its children but a last text |
| `LoadErrors.MissingInnerEnd` | libraries/mxml/mxml-file.c:2050-2066 | without the end tag of an inner element nothing is returned |
| `LoadErrors.UnknownEntity` | libraries/mxml/mxml-file.c:1341-1376 | an entity that no callback knows is an error |
| `LoadErrors.RepeatedAttr` | libraries/mxml/mxml-file.c:2226-2227 | an attribute that is there already is an error |
| `CharRefs.DecimalRef` | libraries/mxml/mxml-file.c:1353-1376 | a decimal character reference reads as the code point with that number, for all numbers below 2^31 that are accepted |
| `CharRefs.HexadecimalRef` | libraries/mxml/mxml-file.c:1353-1376 | a hexadecimal character reference, in lower or upper case, reads as the code point with that number |
| `CharRefs.RefInText` | libraries/mxml/mxml-file.c:2017-2035 | between tags a reference is gathered like the character itself |
| `Reprogram.HasNodeAddressConflict` | src/custom-programming.c:105-124 | true exactly when another node uses the address |
| `Reprogram.HasMacAddressConflict` | src/custom-programming.c:126-146 | true exactly when another node uses the MAC address and it is not 0 |
| `Reprogram.SomeFree` | src/custom-programming.c:73-81 | pigeonhole: among as many addresses as there are nodes, counted on modulo 2^16, one is free |
| `Reprogram.FindAddress` | src/custom-programming.c:73-81 | the search ends at the first address, counted modulo 2^16, that no other node uses |
| `Reprogram.FindMac` | src/custom-programming.c:83-89 | the search ends at the first MAC address that no other node uses, counted in 64 bits and compared as it is |
| `Reprogram.Discover` | src/custom-programming.c:57-99 | NULL is returned exactly when there are fewer than two nodes or no conflict; otherwise the first node in conflict, with an identity told from the fields alone: a shared address becomes the first unused one counted up from the diagnosis identifier, or from the address itself without one, a shared MAC address the next unused one, and what is not shared is kept except that the address becomes 0xCCCC |
| `Reprogram.DiagnosisIdTaken` | src/custom-programming.c:73-81 | in particular a diagnosis identifier that no other node uses as its address is taken as it is |
| `Reprogram.ConflictsGone` | src/custom-programming.c:57-99 | the flashed node has lost the conflicts that it had; it is in conflict afterwards exactly if its MAC address alone collided and another node uses address 0xCCCC |
| `Reprogram.FlashedIsRead` | libraries/ucsi/ucsi_impl.c:1555-1577 | the identity that a node reads from its identification string, with the bits of the group address set there, is the one that the flashed node has in the rounds |
| `Reprogram.PairsAreConflicts` | src/custom-programming.c:57-99 | no node is in conflict exactly when no pair shares an address or a MAC address other than 0 |
| `Reprogram.AddressFixed` | src/custom-programming.c:57-99 | a new address removes pairs with equal addresses and makes none |
| `Reprogram.MacFixed` | src/custom-programming.c:57-99 | the same for MAC addresses |
| `Reprogram.RoundDescends` | src/custom-programming.c:57-99 | every round strictly decreases the two counts of pairs lexicographically, MAC pairs first |
| `Reprogram.RunsEnd` | src/custom-programming.c:57-99 | hence no run has more rounds than a bound that depends on its first state only |
| `Reprogram.Run` | src/custom-programming.c:57-99 | the whole run terminates, and at its end no two nodes share an address or a MAC address other than 0 |
| `Programming.Collector.constructor` | libraries/ucsi/ucsi_impl.c:133-136 | no signatures are valid at the start |
| `Programming.Collector.SetFoundNodeCount` | libraries/ucsi/ucsi_impl.c:1455-1463 | in programming mode programming is allowed exactly when the number of nodes is the expected one, and nothing changes for numbers out of range |
| `Programming.Collector.GetNodeCount` | libraries/ucsi/ucsi_impl.c:1543-1553 | the number of signatures in front of the first missing one |
| `Programming.Collector.ScanNew` | libraries/ucsi/ucsi_impl.c:1404-1418 | a new scan forgets all signatures |
| `Programming.Collector.StoreSignature` | libraries/ucsi/ucsi_impl.c:1465-1541 | a signature in range is stored at its position; the conflicts are looked for exactly when all expected signatures are there without a gap, and the outcome is the node to flash with its new identity, giving up because the queue is full although there is a conflict, or leaving programming mode without a conflict |
| `Crc.StepDivides` | libraries/ucsi/ucsi_impl.c:1590-1601 | the shift-and-xor step equals eight bitwise division steps by the reflected polynomial 0x8408 (RFC 1662, Appendix C.2), for every register and byte |
| `Crc.BitStepSubtracts` | libraries/ucsi/ucsi_impl.c:1590-1601 | one division step shifts and subtracts 0x8408 when a bit is shifted out |
| `Crc.CalcCCITT16` | libraries/ucsi/ucsi_impl.c:1579-1588 | the loop with its 8-bit index computes the checksum of every message of at most 255 bytes |
| `Crc.LoopEndsIff` | libraries/ucsi/ucsi_impl.c:1579-1588 | the loop with its 8-bit index ends if and only if the message has at most 255 bytes |
| `Crc.ChecksumDivides` | libraries/ucsi/ucsi_impl.c:1579-1601 | the checksum is the remainder of the bitwise division of the whole message, eight steps for every byte |
| `Crc.SelfCheck` | libraries/ucsi/ucsi_impl.c:1555-1577 | every message followed by its checksum, low byte first, checks to 0 |
| `Crc.BurstDetected` | libraries/ucsi/ucsi_impl.c:1579-1601 | any change confined to two adjacent bytes changes the checksum, in messages of any length |
| `IdentString.BuildIdentString` | libraries/ucsi/ucsi_impl.c:1555-1577 | the 14 bytes hold the words most significant byte first and the checksum least significant byte first, check to 0, and reading the fields back gives the identity with the group address in its range |
| `Threads.ReceiveHandoff` | libraries/cdev-handler/CdevHandler.c:190-218 | in every interleaving every successful read is accepted or discarded once, in read order, at most one is outstanding, and while it is, no step of any thread touches the buffer or its length |
| `Threads.BufferStable` | libraries/cdev-handler/CdevHandler.c:92-108 | the same for one step from any state that keeps the invariant |
| `Threads.NoLostWakeup` | src/task-unicens.c:216-289 | when the main loop is blocked with the semaphore at zero, every flag that is set belongs to a post still to come, or to receive data that UNICENS has refused, or to the trigger of that refusal |
| `Threads.TimeoutServed` | src/task-unicens.c:224-228 | when the main loop is blocked and no timer is about to post, UCSI_Timeout has been called after every timer that has fired |
| `Threads.AmsServed` | src/task-unicens.c:266-283 | when it is blocked, the AMS messages that were announced have been fetched |
| `Threads.ServiceServed` | src/task-unicens.c:219-223 | when it is blocked, UCSI_Service has been called after every request, the first one included, unless the trigger is set because of a refusal after the request |
| `Threads.HandledHow` | src/task-unicens.c:234-264 | a message is handled by being accepted, or by being discarded while UNICENS does not run; only while it runs messages are offered |
| `Threads.DataServed` | src/task-unicens.c:229-265 | when it is blocked, every message that was read and posted has been handled, or UNICENS has refused it and it has not been handled since |
| `Threads.RunningIs` | src/task-unicens.c:234-235 | UNICENS counts as running exactly after it has reported so and not taken that back |
| `Threads.ReceivedIs` | libraries/cdev-handler/CdevHandler.c:190-218 | the messages are those that the device has delivered, in that order |
| `Threads.RoundEnds` | src/task-unicens.c:284-289 | a round ends behind the look at the cable diagnosis |
| `Threads.RefusalBlocks` | src/task-unicens.c:257-263 | a run in which UNICENS refuses a message and the main loop ends up blocked with the message still flagged: the exception does occur |
| `RingBuffer.Ring.constructor` | libraries/ucsi/ucsi_impl.c:720-731 | an empty queue |
| `RingBuffer.Ring.GetReadPtr` | libraries/ucsi/ucsi_impl.c:733-740 | the slot of the oldest entry, or nothing exactly when the queue is empty |
| `RingBuffer.Ring.PopReadPtr` | libraries/ucsi/ucsi_impl.c:742-752 | removes the oldest entry, also when the 32-bit counter wraps |
| `RingBuffer.Ring.GetWritePtr` | libraries/ucsi/ucsi_impl.c:754-761 | a slot exactly when the queue is not full |
| `RingBuffer.Ring.Write` | libraries/ucsi/ucsi_impl.c:754-772 | writing through that slot changes no queued entry |
| `RingBuffer.Ring.PopWritePtr` | libraries/ucsi/ucsi_impl.c:763-772 | appends what the slot holds, also when the 32-bit counter wraps although 2^32 is no multiple of 40 |
| `Dispatcher.Ucsi.EnqueueCommand` | libraries/ucsi/ucsi_impl.c:640-659 | the command goes to the end of the queue unless that is full, and the slot of the command in flight keeps what it holds |
| `Dispatcher.Ucsi.Service` | libraries/ucsi/ucsi_impl.c:308-472 | with nothing in flight the oldest command is handed over: it either stays as the one in flight or leaves at once with its result, as its kind and the answer of the stack say |
| `Dispatcher.Ucsi.OnCommandExecuted` | libraries/ucsi/ucsi_impl.c:661-718 | a report for the kind of the command in flight removes that command with one result; any other report changes nothing |
| `Dispatcher.Ucsi.OnRoutingResult` | libraries/ucsi/ucsi_impl.c:888-911 | a report for the pending route ends the command in flight, which is the one that asked for this route, successful exactly when the route came into the wanted state |
| `Dispatcher.Ucsi.WantMode` | libraries/ucsi/ucsi_impl.c:191-228 | the wanted mode is stored exactly when the way over the inactive mode could be queued |
| `Dispatcher.Ucsi.NewConfig` | libraries/ucsi/ucsi_impl.c:230-269 | a running stack is stopped before it is initialised; when only one command fits, the stop command stays queued although the call fails |
| `Dispatcher.Ucsi.OnInitResult` | libraries/ucsi/ucsi_impl.c:1076-1091 | the initialisation leaves with its result, and a failed one is queued again |
| `Dispatcher.Ucsi.OnStopResult` | libraries/ucsi/ucsi_impl.c:1093-1101 | the stop command leaves with its result |
| `Dispatcher.Ucsi.OnNsRun` | libraries/ucsi/ucsi_impl.c:1170-1179 | the result of a script whose command has left the queue before |
| `Dispatcher.Ucsi.OnModeReady` | libraries/ucsi/ucsi_impl.c:1246-1294 | a mode command in flight is done, and the wanted mode is queued when it is another one and may be entered now; which mode that is `ModeLaws` tells from the events |
| `Dispatcher.Ucsi.SetRouteActive` | libraries/ucsi/ucsi_impl.c:542-559 | the command is for the first route with the identifier; without one, or with a full queue, nothing is queued |
| `Dispatcher.Ucsi.Play` | libraries/ucsi/ucsi_impl.c:308-1340 | every step of the application or of the stack changes the whole state as the specified step does, and the slot of a command that stays in flight keeps what it holds |
| `Dispatcher.NextKept` | libraries/ucsi/ucsi_impl.c:308-718 | every step keeps: the command in flight is the oldest one and will report, a pending route is the one that it asks for, and every command that has left and reports has its result, of its kind and with its address, in order |
| `Dispatcher.NextMoves` | libraries/ucsi/ucsi_impl.c:308-718 | in one step at most the oldest command leaves, with exactly one result if it is of a reporting kind: that result is for its kind and address and successful exactly if the report is; otherwise a command in flight stays so and only scripts report |
| `Dispatcher.RunKept` | libraries/ucsi/ucsi_impl.c:308-718 | in every state of every run the commands have left in the order in which they were enqueued, and every one that left except NsRun and ProgramExit has reported exactly once, in that order, under its own kind and with the address that its kind of report carries |
| `Dispatcher.RunOnward` | libraries/ucsi/ucsi_impl.c:308-718 | between any two states of a run nothing enqueued, reported or gone is undone, and a command in flight stays the oldest one and in flight until it leaves |
| `Dispatcher.Run` | libraries/ucsi/ucsi_impl.c:308-718 | the machine with its ring and pointers goes through exactly the states of the run that its events determine |
| `ModeLaws.WantedIs` | libraries/ucsi/ucsi_impl.c:191-269 | in every state of every run the wanted mode is that of the last wish: the mode of a successful call, normal operation behind a cable diagnosis, and behind a new configuration normal operation or programming |
| `ModeLaws.WantedUnique` | libraries/ucsi/ucsi_impl.c:191-269 | and the events say which one it is |
| `ModeLaws.CountIs` | libraries/ucsi/ucsi_impl.c:252-261 | the number of nodes to be programmed is that of the last configuration that names any, without the root node |
| `ModeLaws.UpIs` | libraries/ucsi/ucsi_impl.c:1076-1101 | the stack is up exactly when its last report on that is a successful initialisation |
| `ModeLaws.HeldIs` | libraries/ucsi/ucsi_impl.c:1275-1282 | behind a cable diagnosis a mode is entered from the inactive mode only, until that has been done once |
| `ModeLaws.AddedInRun` | libraries/ucsi/ucsi_impl.c:191-1294 | in every step of every run exactly these commands come into the queue: the one that is enqueued, the inactive mode for a wish, stop and initialisation for a configuration of a running stack, initialisation again after a failed one, and behind a mode that was reached the wanted mode, if it is another one, may be entered and there is room |
| `ModeLaws.HandedOver` | libraries/ucsi/ucsi_impl.c:308-472 | a command that the stack accepts stays in the queue without a result, except that scripts and the end of the programming leave silently; a refused one leaves with a failure |
| `ModeLaws.DoneLeaves` | libraries/ucsi/ucsi_impl.c:661-1294 | a command in flight leaves on the report for it, with exactly one result of its kind and for its address, successful as the report says |
| `ModeLaws.OthersKeepIt` | libraries/ucsi/ucsi_impl.c:661-1294 | and on no other event, without any result but those of scripts |
| `JobList.Jobs.AddJob` | libraries/ucs-xml/UcsXml.c:770-794 | the linked list is extended at its end |
| `JobList.Jobs.DeepCopy` | libraries/ucs-xml/UcsXml.c:825-844 | a copy with the same jobs in nodes of its own |
| `JobList.AddBeside` | libraries/ucs-xml/UcsXml.c:770-794 | adding to a list leaves a list with nodes of its own as it is |
| `JobList.Branches` | libraries/ucs-xml/UcsXml.c:1273-1279 | any number of branches, each on a copy of its own: the list itself and the copies of the other branches are not altered, and no two of them share a node |
| `JobList.Jobs.GetJobList` | libraries/ucs-xml/UcsXml.c:796-823 | the array holds the jobs in order and the terminator; none for an empty list |
| `Sockets.BuiltAppend` | libraries/ucs-xml/UcsXml.c:770-794 | a job appended behind all that it refers to keeps the order |
| `Sockets.BuiltFront` | libraries/ucs-xml/UcsXml.c:770-794 | and only such a job does |
| `Sockets.Parser.AddNetwork` | libraries/ucs-xml/UcsXml.c:1134-1175 | the network socket, with a pending combiner in front of it or a pending splitter behind it, which takes it as its input; accepted exactly with the attributes that are mandatory |
| `Sockets.Parser.AddPeripheral` | libraries/ucs-xml/UcsXml.c:1176-1245 | ports before the socket that uses them; accepted exactly with the attributes that are mandatory |
| `Sockets.Parser.Connect` | libraries/ucs-xml/UcsXml.c:1321-1394 | the connection becomes the last job and the endpoint is registered, if a network socket takes part and a route name or label is known |
| `Sockets.Parser.Branch` | libraries/ucs-xml/UcsXml.c:1273-1279 | a network socket inside a splitter or a combiner gives one more endpoint, wired to the other socket and in order, exactly if it is accepted while a name or a label is known |
| `Sockets.Parser.Branches` | libraries/ucs-xml/UcsXml.c:1273-1279 | all network sockets in turn give exactly the specified endpoints, one for each that is accepted; the failure of one is not noticed, and what it has stored stays for the next one |
| `Sockets.Parser.FinishCombiner` | libraries/ucs-xml/UcsXml.c:1302-1319 | the combiner refers to the peripheral socket and is the output of every endpoint that comes out, one for each of its accepted network sockets |
| `Sockets.Parser.ParsePair` | libraries/ucs-xml/UcsXml.c:911-945 | for every connection with two sockets, one of them on the network side: it is accepted exactly if the attributes that are looked at are; then there is one endpoint for each accepted network socket, whose last job is the connection of the two objects that the sockets ask for. Its job list is in dependency order, and all new objects are complete, if and only if the source is no splitter, or one whose first network socket is accepted. What was there stays, and the ports can be used for the next connection |
| `Sockets.Parser.ParseConnections` | libraries/ucs-xml/UcsXml.c:907-945 | all connections of a node, on one set of ports: accepted exactly if each of them is; then each has added its endpoints as for a single connection, behind those of the ones before, and later connections do not disturb them |
| `Sockets.PairHeadsCome` | libraries/ucs-xml/UcsXml.c:1142-1175 | every endpoint of an accepted pair comes from one accepted network socket, in their order: it is inactive exactly if that socket says so and has its identifier, its name or label and its fallback label; and every accepted network socket with a name or a label other than 0 has its endpoint |
| `Sockets.RefusalUnnoticed` | libraries/ucs-xml/UcsXml.c:1257-1264 | an input that is accepted and whose one endpoint has a list out of order: a source splitter whose network socket has a label and a wrong activity |
| `Routes.Count` | libraries/ucs-xml/UcsXml.c:1774-1807 | the counting pass gives the number of routes modulo 2^16 |
| `Routes.NamedPlansAre` | libraries/ucs-xml/UcsXml.c:1777-1796 | name-linked routes are exactly the pairs of a talker and a listener with equal names, in list order |
| `Routes.BuiltAt` | libraries/ucs-xml/UcsXml.c:1839-1845 | every route has the identifier of its sink, or that of its source, or the next automatic one |
| `Routes.AutoIdsDistinct` | libraries/ucs-xml/UcsXml.c:1839-1845 | fewer than 0x8000 automatic identifiers are pairwise distinct and none is the invalid one |
| `Routes.FillLabels` | libraries/ucs-xml/UcsXml_Private.c:555-584 | routes by label, with the second test of the capacity: it fails exactly when the capacity is exceeded |
| `Routes.ParseRoutes` | libraries/ucs-xml/UcsXml.c:1769-1896 | with fewer than 2^16 routes the passes agree, the capacity is never exceeded and exactly the routes that the entries ask for are filled in, as in the line below; with more, the call fails, unless the count is a multiple of 2^16, when it succeeds without any route |
| `Routes.BuiltRoutesOk` | libraries/ucs-xml/UcsXml.c:1812-1896 | told from the entries alone, each route once and in order: every talker and listener with the same name in 32 bytes has a route, active if and only if both are, with the identifier of the listener, else that of the talker, else the next automatic one; every label has one, active as its entry, with the default endpoint on the other side and the flag of the fallback network |
| `VariableNames.CandidateInjective` | tool/xml2struct/Xml2Struct.c:340-348 | names of different sides, routes, kinds or counters are different, for every prefix |
| `VariableNames.CandidateFits` | tool/xml2struct/Xml2Struct.c:334-348 | with a prefix of at most 31 characters the buffer holds every name |
| `Generator.FreeCounter` | tool/xml2struct/Xml2Struct.c:340-348 | while fewer than m elements of a kind have names on a route and side, one of the first m names is new |
| `Generator.ShortPrefix` | tool/xml2struct/Xml2Struct.c:334-348 | with a prefix of at most 31 characters there is room for the names of at most 256 objects of every kind |
| `Generator.LoopEndsIff` | tool/xml2struct/Xml2Struct.c:340-348 | the loop over the 8-bit counter comes to a new name if and only if one of the 256 names, cut to the buffer, is not taken |
| `Generator.Printer.GetNameFromTable` | tool/xml2struct/Xml2Struct.c:277-289 | a name of the element, or nothing exactly when it has none |
| `Generator.Printer.GetObjectFromTable` | tool/xml2struct/Xml2Struct.c:263-275 | true exactly when the name is taken |
| `Generator.Printer.FirstName` | tool/xml2struct/Xml2Struct.c:332-353 | the loop ends at the first name that is not taken |
| `Generator.KeptMore` | tool/xml2struct/Xml2Struct.c:291-314 | a declaration whose operands are declared, under a new name, keeps the invariant: each element once, each name once, declared before use |
| `Generator.Printer.PrintUcsElement` | tool/xml2struct/Xml2Struct.c:767-818 | afterwards the object is declared, all new declarations are objects that can be reached from it, and the invariant holds |
| `Generator.Printer.PrintJobs` | tool/xml2struct/Xml2Struct.c:820-841 | afterwards the list is declared, and all new declarations are the list or lie below it |
| `Generator.Closed` | tool/xml2struct/Xml2Struct.c:767-818 | where everything is declared before use, whatever can be reached from a declared object is declared |
| `Generator.BuiltIsGraph` | libraries/ucs-xml/UcsXml.c:907-945 | the parser meets what the generator needs: every job list that it adds is a list of its objects, and these are complete and free of cycles if and only if no connection has a source splitter whose network socket is refused |
| `Generator.Printer.PrintResources` | tool/xml2struct/Xml2Struct.c:154-171 | for any acyclic resource graph and all routes with room for their names: exactly the lists of the routes and the objects below them are declared, each once, after everything that it refers to, under a name that nothing else has |

## Left out

- The UNICENS stack: its return values are parameters and its callbacks are steps that may come in any order.
- Device, file, sysfs and console input and output, the command line and the MOST configuration tools.
- Memory-allocation failure, reference counting, `mxmlDelete`, and overflow of `int` byte counts and columns.
- UTF-16 input, comments, CDATA sections, processing instructions, declarations and quoted attribute names in the loader: the model stops with
  an outcome of its own there (a quoted attribute name is an error, as in the code).
- Loading with a callback, a SAX callback or an existing parent; saving with a white space callback; integer, real, opaque and custom nodes.
- `mxmlFindPath`, which reads its path separator before it is set.
- Values of `where` other than the two named ones in `mxmlAdd`; a null pointer for `top` in a walk is taken as the root.
- Entity callbacks other than one: the list of callbacks is a single function parameter.
- TreeRoundTrip.PrintThenParse: stated for a root, as the writer writes one, and for trees in normal form, which is necessary as well
  (`LoadForm.ComesBackIff`).
- MxmlSave.WriteTree: the node must have no next sibling, because the code goes on to it then, never comes back to the node
  (`MxmlSave.NeverBack`) and reads through the null pointer above the root.
- MxmlIndex.IndexNew: when neither an element nor an attribute is named, the top node must be an element, because the code compares its name
  as soon as there is a second node.
- Crc.CalcCCITT16: at most 255 bytes, because the loop does not end otherwise.
- Reprogram.Discover: at most 2^16 nodes, which is more than the array of signatures holds, and no null pointers.
- Reprogram.Run: the node takes over what was flashed, with the bits of the group address set as the identification string sets them.
- Programming.Collector.StoreSignature: the null test of the signature is not modelled; whether the queue has room is a parameter, and the commands
  put into it are the outcome.
- Threads.ReceiveHandoff: one run of the daemon without restart, no upper limit of the semaphores, and no weak memory.
- Dispatcher.Run: payloads, service requests and printing are not modelled; a route report without a route while nothing is in flight is excluded, because
  the code reads through a null pointer then.
- Sockets.Parser.ParsePair: connections with two sockets; job lists are values there, and `JobList.Branches` has the linked lists and their copies. The attributes are
  parameters and the search for the first child element is not modelled.
- Routes.ParseRoutes: names are sequences of at most 32 characters; that explicit identifiers collide is possible and not excluded.
- Generator.Printer.PrintResources: there must be room for the names: as many counters as there are objects of a kind below a job list, at most
  256, and no name longer than the buffer. Field values, scripts, nodes and the table of routes are not modelled, and null references,
  for which the generator exits, are excluded.
- The status table of `ucsi_print.c`, conversions of enumerations to strings, script payloads, getters and setters, which hold no state of
  their own.
