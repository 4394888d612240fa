# A replicated file system and a caching proxy, verified

This project models two programs of the repository in Dafny and proves what they promise, and
exactly when they keep the promise.

**The distributed file system** (`DFS_client.c`, `DFS_server.c`). `put` cuts a file into four
parts, takes a rotation from the file's MD5 digest and deals each reachable server two cyclically
adjacent parts; an unreachable server does not advance the rotation. `get` walks the servers with
a shrinking vector of wanted parts; a server sends at most two of them, in the order in which it
happens to read its directory. `list` rebuilds a table of names and parts from the servers'
listings.

**The proxies** (`proxyserver_with_cache.c`, `proxyserver_no_cache.c`). The uncached proxy is the
specification. The caching proxy keeps an append-only linked list of hosts, with the blacklist as
its fixed front, a file per mangled URI, and a time stamp per file.

`dafny verify dfyconfig.toml` checks everything.

## How the model is built

| file | contents |
|---|---|
| CStrings.dfy | NUL-terminated text in zeroed blocks, `%s` and strtok tokenising, `%d` and atoi |
| Layout.dfy, Md5Mod.dfy | cutting and joining a file, dealing its parts, the rotation |
| Transfer.dfy | the four byte loops under short reads and writes |
| Codec.dfy | part file names, headers, terminator; the put stream and the get reply |
| DfsServer.dfy, HomeRace.dfy | `class Server`: login, home directory, list, put, get, MKDIR; sessions that begin at once |
| Sessions.dfy, WireFormat.dfy | what a server does with a session, and the bytes of both directions |
| DfsClient.dfy, DfsGet.dfy, Listing.dfy, Mkdir.dfy | the client's put, get, list and MKDIR commands, session by session |
| Availability.dfy, DfsTheorems.dfy, PutThenGet.dfy, ListGetAgreement.dfy | what put, get and list promise together |
| StaleParts.dfy, NewVersions.dfy | any number of puts of a name: what is left of older versions |
| Commands.dfy | the commands one after the other |
| DfsRun.dfy | all interleavings of clients and server threads, and the invariant |
| RunRefinesCommands.dfy, CommandRuns.dfy, PutThreads.dfy, PutInCompany.dfy | how the runs and the commands agree |
| DfsSafety.dfy, DfsOverlap.dfy | which runs are safe, exactly |
| HostList.dfy, Url.dfy, BlacklistFile.dfy | the linked list, URI parsing and file names, the blacklist file |
| UncachedProxy.dfy, CachingProxy.dfy, ProxyRequests.dfy | the two proxies, and what they do with a request as it is typed |
| ProxyRefinement.dfy, ProxyLimits.dfy, BlacklistThreads.dfy | refinement with bounded staleness, where it stops, and the blacklist under concurrent threads |

Each program loop is a method over arrays, class fields or local variables, proved against a
function on values; the theorems are lemmas about those functions. A C `char` is a Dafny `char`
and NUL is `'\0'`; payloads are arbitrary.

What the environment decides is a parameter or a nondeterministic choice: which servers answer,
the order of every directory read, how many bytes a read or write moves, the clock, the resolver,
what an origin server answers, and whether `fopen` succeeds. MD5 is any 16 bytes.

Assumptions, stated as preconditions where they are used: names contain no white space and no '/',
no directory is called "." or "..", and none that is listed begins with a dot;
formatted messages fit their 100-byte blocks; file lengths fit an `int`; no subdirectory's name
could be taken for a part file of the name a get asks for (`Harmless`); the server's own loops
move the full count (see `Transfer`, which proves that they need this); the host list's
uninitialised head node matches no key; the resolver is a fixed function and maps an address to
itself; the program's tables are large enough.

## Main results

- `PutThenGet.ExactAvailability`: after one put, a get returns the file if and only if every part was
  dealt to a server reached by both; `FullPutAvailability`: after a full put,
  if and only if no two cyclically adjacent servers are down.
- `DfsTheorems.GetSucceedsIff`: for any holdings, also after repeated and degraded puts, a get
  succeeds under every directory order if and only if each part is held by two reachable servers,
  or by one with at most one other part that no earlier reachable server holds.
- `NewVersions.LatestVersionIff`: the same question after any puts of any files under one name. A
  put leaves behind the parts that it does not deal, so a get can collect a mixture of versions. It
  cannot if and only if every left-over part sits behind servers that cannot all miss that part.
  `NewVersionIff`: with every server up all the time, a file whose parts have all changed comes back
  in every case only if its digest gives the old rotation. `AvailableAfterPuts`: puts of one file leave
  nothing over.
- `DfsSafety.WholeRunSafety`: over all interleavings of clients and of the server threads that
  outlive a put, a get that reads every part while nobody has its file open writes exactly what was
  put. `SafeBetweenPuts` and `SafeByTurns` give conditions a caller can check: no put of the name is
  under way, or sessions do not overlap.
- `DfsOverlap.WholeRunExact`: keeping readers out of open files is needed for every part that is not
  empty, and for no other. `GetOvertakesPut` is the run that shows it: nothing waits for the server
  threads of a put, so a client's own get can overtake its put and write a wrong file, of any size and
  even when its sockets hold a single byte.
- `PutThreads.ThreadsLeavePutTrees`: whatever the order of those threads, when they have closed their
  files the trees are what the put command is said to leave, for the servers that the run reached.
  `PutInCompany` proves it for the files, and exact availability, with any other clients at work.
  Conversely `CommandRuns.PutRefines` and `GetRefines`: all that the commands can come to is a run.
- `HomeRace.RaceIff`: which sessions may begin at once without ending a server process.
- `Commands.PutAndGet`, `ListAndGet` and `PutTwiceListAndGet`: the theorems as contracts of the
  commands run one after the other. The last ends with a file that list shows complete and get
  cannot have (`ListGetAgreement.ListedButNotFetched`).
- `ListGetAgreement.AgreesIff`: exactly when list and get agree.
- `ProxyRequests`: the proxies' whole decision tree for a request as it is typed: server, port, answer, file and node.
- `Transfer`: the client's loops survive short transfers if and only if the last one is full; the
  server's loops need every one to be full.
- `ProxyRefinement.CacheRefines` and `BoundedStaleness`, with `OneNodePerResource`; `ProxyLimits`
  says exactly when the documented bound holds (`TimeoutBoundIff`), which requests disturb each other
  (`CollisionIff`), and which requests lead to a blacklisted address by way of the blacklist's own file
  name (`BlacklistRunIff`).
- `BlacklistThreads.BlacklistSafety`: for any number of threads and every interleaving.

## Where code and documentation differ

- `ProxyServer/readme.txt` promises a 500 error for a host that does not resolve; the caching
  proxy sends 404 (the uncached one 500). The model follows the code.
- `ProxyServer/readme.txt` says that the time stamp tells whether a cached resource is older than the
  timeout. The stamp is taken when the fetch is over, so the age can exceed the timeout by the fetch
  time, and only whole seconds are compared (`CachingProxy.AgeDecides`).
- Nothing in `DistributedFileSystem/readme.txt` says that a put goes on after the client is back at
  its prompt. It does: the client reads no acknowledgement.
- `DistributedFileSystem/readme.txt` gives a second put of a name no meaning of its own. The code mixes:
  a new version with another rotation leaves old parts in reach of the next get.
- `DistributedFileSystem/readme.txt` calls a file complete when all four parts are available, for list
  and for get. A server sends at most two parts, so for get this is not enough.

## Model

| member | source | states |
|---|---|---|
| CStrings.TokensOfSpaced | DistributedFileSystem/client/DFS_client.c:170-208 | tokenising a list of words rendered with blanks gives back the list, for both tokenisers and any number of words |
| CStrings.BlockRoundTrip | DistributedFileSystem/server/DFS_server.c:203-206 | words formatted into a 100-byte zero-padded block come back from sscanf unchanged |
| CStrings.BlockExact | DistributedFileSystem/server/DFS_server.c:203-206 | and they do iff the text has up to 100 characters |
| CStrings.AtoiOfItoa | DistributedFileSystem/client/DFS_client.c:418-424 | atoi reads back every non-negative number that "%d" wrote |
| CStrings.AtoiReads | DistributedFileSystem/client/DFS_client.c:418-424 | atoi reads decimal digits, the most significant first, up to another character |
| Layout.SplitFile | DistributedFileSystem/client/DFS_client.c:247-261 | the four consecutive reads fill buffers and sizes with the four parts |
| Layout.JoinFile | DistributedFileSystem/client/DFS_client.c:460-464 | the write loop emits the buffers in order, whole |
| Layout.SplitJoin | DistributedFileSystem/client/DFS_client.c:247-261 | the parts concatenate to the file for every length; the last is at most 3 bytes longer |
| Layout.JoinExact | DistributedFileSystem/client/DFS_client.c:455-465 | among parts that are not too long only the true four join to the file |
| Layout.PlacedIff | DistributedFileSystem/client/DFS_client.c:278-346 | a part is stored somewhere iff its cyclic distance from the rotation is at most the number of reached servers |
| Layout.PlacedCount | DistributedFileSystem/client/DFS_client.c:278-346 | s reached servers store exactly min(4, s+1) different parts |
| Layout.FullPutHolders | DistributedFileSystem/client/DFS_client.c:309-346 | after a full put part k is on exactly two cyclically adjacent servers, given by the rotation |
| Layout.DealtPair | DistributedFileSystem/client/DFS_client.c:307-346 | a reached server gets the parts m + r and m + r + 1, cyclically, where r servers were reached before it |
| Md5Mod.GetMd5Mod | DistributedFileSystem/client/DFS_client.c:545-564 | the hex loop and the little-endian load compute the second group of eight characters mod n |
| Md5Mod.RotationIsOneNibble | DistributedFileSystem/client/DFS_client.c:545-564 | the rotation is the ASCII code of the high hex digit of digest byte 8, mod 4 |
| Md5Mod.RotationByNibble | DistributedFileSystem/client/DFS_client.c:545-564 | the rotation as a function of that nibble |
| Md5Mod.RotationIsUneven | DistributedFileSystem/client/DFS_client.c:545-564 | of the 16 nibbles 4, 5, 4 and 3 give the rotations 0 to 3 |
| Transfer.ClientSend | DistributedFileSystem/client/DFS_client.c:326-344 | the send loop emits what the schedule of short writes determines |
| Transfer.ClientSendExact | DistributedFileSystem/client/DFS_client.c:326-344 | it emits a prefix of the part always, and the part iff the last write is full |
| Transfer.ClientReceive | DistributedFileSystem/client/DFS_client.c:431-447 | the receive loop, with its copies of whole buffers, stays in bounds and rebuilds what the schedule determines |
| Transfer.ClientReceiveExact | DistributedFileSystem/client/DFS_client.c:431-447 | it rebuilds the part and stops right behind it iff the last read is full |
| Transfer.ServerStore | DistributedFileSystem/server/DFS_server.c:269-284 | the put loop appends whole buffers but counts what it read |
| Transfer.ServerStoreExact | DistributedFileSystem/server/DFS_server.c:269-284 | it stores the payload and stops at the next header iff every read is full |
| Transfer.ServerSend | DistributedFileSystem/server/DFS_server.c:367-379 | the get loop moves the file position by whole buffers but counts what it wrote |
| Transfer.ServerSendExact | DistributedFileSystem/server/DFS_server.c:367-379 | it sends every file of a length intact iff every write is full |
| Transfer.AllFullIff | DistributedFileSystem/client/DFS_client.c:326-344 | full calls move 8192 bytes each and the rest in the last |
| Transfer.ShortRead | DistributedFileSystem/server/DFS_server.c:269-284 | a short read leaves zeros up to a whole buffer in the file |
| Codec.MatchIsExact | DistributedFileSystem/server/DFS_server.c:320-339 | among part file names the name and last-character comparison identifies exactly one file |
| Codec.EntryNameInjective | DistributedFileSystem/server/DFS_server.c:265 | part file names of different names or parts differ |
| Codec.HeaderRoundTrip | DistributedFileSystem/client/DFS_client.c:320-322 | a header gives back size and part number, and no header, of an empty part either, is taken for the terminator |
| Codec.PutRoundTrip | DistributedFileSystem/server/DFS_server.c:253-288 | the receiver recovers exactly the labelled pieces from the put stream, whatever their bytes |
| Codec.ReplyRoundTrip | DistributedFileSystem/client/DFS_client.c:408-449 | the client recovers the pieces of a get reply and stops where the server did |
| Codec.ReplyShape | DistributedFileSystem/server/DFS_server.c:386-392 | a reply is the messages and a terminator exactly when it has fewer parts than it may |
| DfsServer.HomeReadyIff | DistributedFileSystem/server/DFS_server.c:174-197 | after the directory check a user has a home iff it existed or the name is a prefix of no entry |
| DfsServer.HomeAlwaysReady | DistributedFileSystem/server/DFS_server.c:174-200 | when no user name is a prefix of another, of sessions one after the other every accepted one has its home and none ends the server |
| HomeRace.AloneIsEnsureHome | DistributedFileSystem/server/DFS_server.c:174-197 | a session that is alone looks and makes as the prefix check decides, and the server goes on |
| HomeRace.RaceIff | DistributedFileSystem/server/DFS_server.c:174-197 | of sessions that begin at once: the server survives every interleaving iff no user for whom the check finds nothing has two of them |
| HomeRace.RaceLeavesHomes | DistributedFileSystem/server/DFS_server.c:174-200 | and when no name begins another, every session that goes on has its home, in every interleaving |
| DfsServer.PathInjective | DistributedFileSystem/server/DFS_server.c:200-265 | different directories and entries have different path strings |
| DfsServer.Selection | DistributedFileSystem/server/DFS_server.c:306-347 | for every directory order a get picks min(n, held and asked) different parts, all held and asked for |
| DfsServer.AnswerIsPicks | DistributedFileSystem/server/DFS_server.c:348-396 | what is sent is exactly the picked parts, and the terminator iff fewer than n |
| DfsServer.SomeOrderPicks | DistributedFileSystem/server/DFS_server.c:312-347 | every permitted choice of parts is the selection of some directory orders |
| DfsServer.ListDirectory | DistributedFileSystem/server/DFS_server.c:220-231 | the listing is the visible entries, a blank before each, cut off at the end of the buffer |
| DfsServer.VisibleInOrder | DistributedFileSystem/server/DFS_server.c:224-231 | they come in the order of the directory, without "." and ".." |
| DfsServer.Server.CheckLogin | DistributedFileSystem/server/DFS_server.c:156-163 | valid iff the pair is among the accounts |
| DfsServer.Server.MakeHome | DistributedFileSystem/server/DFS_server.c:174-197 | makes the home directory as the prefix check decides |
| DfsServer.Server.ReceiveParts | DistributedFileSystem/server/DFS_server.c:253-288 | two headers and payloads become two files, and nothing else changes |
| DfsServer.Server.FindWanted | DistributedFileSystem/server/DFS_server.c:319-347 | finds the first entry with a part still requested |
| DfsServer.Server.SendParts | DistributedFileSystem/server/DFS_server.c:312-396 | answers with one part per pass, updating the request vector in place |
| DfsServer.Server.ExecuteCommand | DistributedFileSystem/server/DFS_server.c:206-409 | the effect and the answer of list, put, get and MKDIR; a list whose directory is missing ends the server process |
| DfsServer.Server.HandleRequest | DistributedFileSystem/server/DFS_server.c:124-411 | a whole session: refused without effect, or home check and one command; when it ends the server process |
| DfsServer.CommandsExclusive | DistributedFileSystem/server/DFS_server.c:209-401 | at most one command is recognised |
| Sessions.VerbByPrefix | DistributedFileSystem/server/DFS_server.c:206-401 | a command is known by how it begins; what follows in that word makes no difference |
| Sessions.UnknownVerb | DistributedFileSystem/server/DFS_server.c:206-401 | any other command does nothing but make sure of the home directory |
| Sessions.DirectoryMade | DistributedFileSystem/server/DFS_server.c:211-219 | a subdirectory named in a command is there afterwards, empty if new, and nothing else is made or changed |
| Sessions.NoHome | DistributedFileSystem/server/DFS_server.c:174-296 | without a home directory put stores nothing and get answers nothing |
| Sessions.ListEndsServer | DistributedFileSystem/server/DFS_server.c:220-242 | a list session ends the server process iff its directory is not there |
| Mkdir.MkdirSession | DistributedFileSystem/server/DFS_server.c:401-409 | MKDIR keeps every directory with its files; the new one is there, empty if it was not before; without a home nothing happens |
| WireFormat.PutIsSentSo | DistributedFileSystem/client/DFS_client.c:287-345 | what a put client sends, byte for byte |
| WireFormat.PutIsReadSo | DistributedFileSystem/server/DFS_server.c:124-288 | such bytes, from whomever they come, become two files with these names and no other change |
| WireFormat.GetIsSentSo | DistributedFileSystem/client/DFS_client.c:382-404 | what a get client sends, byte for byte |
| WireFormat.GetIsAnsweredSo | DistributedFileSystem/server/DFS_server.c:297-396 | the bytes of the answer: files of the directory that are wanted, at most two, and the terminator when there are fewer |
| WireFormat.RefusalIsSentSo | DistributedFileSystem/server/DFS_server.c:164-168 | a refused client is sent the refusal, nothing else, and nothing changes |
| DfsClient.PutSession | DistributedFileSystem/client/DFS_client.c:287-345 | from the client's bytes to the files: the server stores exactly the pieces sent, under the name and directory typed |
| DfsClient.GetSession | DistributedFileSystem/client/DFS_client.c:394-407 | the server answers from the directory typed, for the vector sent |
| DfsClient.RefusedSession | DistributedFileSystem/server/DFS_server.c:164-168 | a refused login changes no file and is told only the refusal |
| DfsClient.SendPair | DistributedFileSystem/client/DFS_client.c:312-345 | the inner loop sends parts p and p + 1 cyclically, exactly, through short writes |
| DfsClient.Put | DistributedFileSystem/client/DFS_client.c:236-349 | each reached server gets the pair that its rank among reached servers determines; others keep their trees; a refused login stops the walk |
| Mkdir.Mkdir | DistributedFileSystem/client/DFS_client.c:476-507 | every visited server makes the directory, the others keep their trees, a refused login ends the program |
| DfsGet.ReceiveParts | DistributedFileSystem/client/DFS_client.c:408-449 | slots of the request vector are zeroed exactly for the parts whose buffer and size are filled in |
| DfsGet.SessionGains | DistributedFileSystem/client/DFS_client.c:405-449 | a session adds exactly the parts that directory, order and vector determine |
| DfsGet.Get | DistributedFileSystem/client/DFS_client.c:361-474 | the command exits iff a server that it comes to refuses the login while a part is missing; else it writes the four parts in order or reports incomplete; exactly the servers that it comes to make directories, and no file changes |
| DfsTheorems.ReceivedKeys | DistributedFileSystem/server/DFS_server.c:312-396 | a session gains min(2, held and wanted) parts, all held, none collected before |
| DfsTheorems.EachPartOnce | DistributedFileSystem/client/DFS_client.c:368-452 | the parts sent during a get are as many as it gains: none crosses the wire twice |
| DfsTheorems.GatherIsRun | DistributedFileSystem/client/DFS_client.c:368-452 | under any directory orders the walk is one of the abstract runs over held sets |
| DfsTheorems.RunIsGather | DistributedFileSystem/client/DFS_client.c:368-452 | and every abstract run is the walk under some orders |
| Availability.RobustIff | DistributedFileSystem/server/DFS_server.c:312-347 | every run gains all parts iff each part is safe |
| Availability.SmallHoldingsGainAll | DistributedFileSystem/server/DFS_server.c:312-347 | with at most two parts per server every run gains all that is held |
| Availability.GainedAtMost | DistributedFileSystem/server/DFS_server.c:312-347 | at most two parts come from each server |
| DfsTheorems.GetSucceedsIff | DistributedFileSystem/client/DFS_client.c:368-474 | a get succeeds under every order iff each part is on two reached servers or on one with at most one other part not held earlier |
| DfsTheorems.GatherFaithful | DistributedFileSystem/client/DFS_client.c:425-447 | parts collected from faithful directories are the parts of the file |
| DfsTheorems.FaithfulResult | DistributedFileSystem/client/DFS_client.c:455-474 | a complete faithful collection writes the file |
| PutThenGet.StorePair | DistributedFileSystem/server/DFS_server.c:253-288 | a put session stores its two parts and changes no other file |
| PutThenGet.OtherNamesUntouched | DistributedFileSystem/server/DFS_server.c:253-288 | parts of other names are left alone |
| PutThenGet.HoldsWhatItGot | DistributedFileSystem/client/DFS_client.c:280-349 | after a put a server holds exactly the parts dealt to it, with the right bytes |
| PutThenGet.ExactAvailability | DistributedFileSystem/client/DFS_client.c:280-474 | after one put, of a new name or over parts that it replaces, whose server threads have closed their files, a get writes exactly the file iff every part was dealt to a server reached by both; otherwise it reports incomplete |
| PutThenGet.VisitsArePossible | DistributedFileSystem/client/DFS_client.c:368-452 | what the get command meets at ready servers are possible visits of their directories |
| PutThreads.ThreadsLeavePutTrees | DistributedFileSystem/server/DFS_server.c:111-288 | in whatever order the client and the server threads of a put take their steps, the closed files are those that the put command is said to leave, for exactly the servers that this put reached |
| PutInCompany.ThreadsLeaveFiles | DistributedFileSystem/server/DFS_server.c:111-288 | and also while any other clients list, get and make directories: every server the put reached has its two parts over what was there, the others have what they had |
| PutInCompany.AvailableOnceOver | DistributedFileSystem/client/DFS_client.c:280-474 | so exact availability holds after every such run, for the servers that the run reached |
| Commands.PutAndGet | DistributedFileSystem/client/DFS_client.c:236-474 | the two commands one after the other: the get returns the file iff every part was dealt to a server reached by both, else incomplete |
| StaleParts.CollectsFileIff | DistributedFileSystem/client/DFS_client.c:368-474 | among parts of several versions: a get collects exactly the parts of one file under every order iff the holdings are robust and every other part is one that the servers before it cannot all miss |
| StaleParts.WritesFileIff | DistributedFileSystem/client/DFS_client.c:455-474 | and writes exactly that file in the same cases, when no left-over part is longer |
| NewVersions.PutsLeaveVersions | DistributedFileSystem/client/DFS_client.c:280-349 | puts of any files under one name, with any rotations and servers, leave on a server every part ever dealt to it, as it was dealt last |
| NewVersions.LatestVersionIff | DistributedFileSystem/client/DFS_client.c:236-474 | after any such puts every get collects exactly the last file iff the dealt parts are robust and all left-over parts are hidden behind servers that hold the part too |
| NewVersions.LatestFileIff | DistributedFileSystem/client/DFS_client.c:236-474 | and every get writes the last file in the same cases, when no part gets shorter |
| NewVersions.NewVersionIff | DistributedFileSystem/client/DFS_client.c:278-346 | a full put over a full put, every part changed: the new version comes back under every order iff the two rotations are equal |
| NewVersions.NeverWrong | DistributedFileSystem/client/DFS_client.c:455-474 | while left-over parts are hidden a get writes the last file or reports incomplete, never anything else |
| NewVersions.AvailableAfterPuts | DistributedFileSystem/client/DFS_client.c:280-474 | after any number of degraded puts of one file, also with different rotations, nothing is left over, and a get returns the file under every order iff what was dealt is robust |
| NewVersions.LastPutWins | DistributedFileSystem/client/DFS_client.c:280-474 | after puts of different files with equal rotation and the same servers, a get returns the last exactly where it would return a first |
| PutThenGet.FullPutAvailability | DistributedFileSystem/client/DFS_client.c:280-474 | after a full put: iff no two cyclically adjacent servers are down |
| PutThenGet.OneServerDown | DistributedFileSystem/client/DFS_client.c:280-474 | any single failure is survived |
| PutThenGet.ThreeServersSuffice | DistributedFileSystem/client/DFS_client.c:280-474 | three servers at put and get time are always enough |
| Listing.ListingRoundTrip | DistributedFileSystem/client/DFS_client.c:160-173 | the client sees exactly the names the server read |
| Listing.ListingExact | DistributedFileSystem/server/DFS_server.c:220-231 | and it does iff the names, a blank before each, take up to 8191 characters |
| Listing.MergeToken | DistributedFileSystem/client/DFS_client.c:174-205 | the loop over the table flags the row of the name or adds one |
| Listing.MergeAllMeans | DistributedFileSystem/client/DFS_client.c:172-209 | each name once; a flag is set iff it was or the listing has that part |
| Listing.RowsInOrder | DistributedFileSystem/client/DFS_client.c:174-205 | no row ever moves, and new rows come in the order in which the tokens bring their names first |
| Listing.ListShows | DistributedFileSystem/client/DFS_client.c:124-234 | over all servers: a row per name, in the order of first occurrence, with a flag per part that is listed |
| Listing.List | DistributedFileSystem/client/DFS_client.c:124-214 | the table shows what the visited servers list, row by row; a refused login ends the program; exactly the visited servers make directories |
| ListGetAgreement.ListedCompleteIff | DistributedFileSystem/client/DFS_client.c:224-235 | list shows a file complete iff every part is on some reached server, and names it iff some part is |
| ListGetAgreement.GetAgreesWithList | DistributedFileSystem/client/DFS_client.c:124-474 | a get that succeeds is of a file listed complete; conversely when no server holds more than two of its parts |
| ListGetAgreement.AgreesIff | DistributedFileSystem/client/DFS_client.c:124-474 | list and get agree under every order of the directories iff the file is not all there or its holdings are robust |
| ListGetAgreement.TwoPutsFillServerTwo | DistributedFileSystem/client/DFS_client.c:278-346 | two puts of one file, the second with servers 0 and 1 down, leave all four parts on server 2 |
| ListGetAgreement.ListedButNotFetched | DistributedFileSystem/client/DFS_client.c:124-474 | with only such a server up, list shows the file complete and every get fails |
| Commands.ListAndGet | DistributedFileSystem/client/DFS_client.c:124-474 | list and then get with the same servers: a file that is fetched was listed complete, conversely when no server holds more than two parts |
| Commands.PutTwiceListAndGet | DistributedFileSystem/client/DFS_client.c:124-474 | two puts, a list and a get: the file is listed complete and reported incomplete |
| Commands.EmptyServerWillDo | DistributedFileSystem/server/DFS_server.c:174-231 | an empty server, for any user name and file, meets what PutTwiceListAndGet asks, with directory orders spelled out |
| DfsRun.StepKeeps | DistributedFileSystem/server/DFS_server.c:111-396 | every step of every client and server thread keeps: part files are whole unless open for writing, what a get has of a part is right unless the part was open when read |
| DfsRun.ClosedIsWhole | DistributedFileSystem/server/DFS_server.c:267-284 | after every run a part file that nobody has open is whole, also after overlapping writers |
| DfsRun.PartFileSound | DistributedFileSystem/server/DFS_server.c:348-391 | the file of a part that goes over is never too long, and the true part when nobody has it open |
| DfsSafety.WholeRunSafety | DistributedFileSystem/client/DFS_client.c:280-465 | in every run, a get that, whenever it takes the size or some bytes of a non-empty part, finds its file open to nobody writes exactly what was put |
| DfsSafety.SafeBetweenPuts | DistributedFileSystem/client/DFS_client.c:280-465 | a get is right if all threads of earlier puts of the name have closed and no put of it starts before the get ends |
| DfsSafety.SafeByTurns | DistributedFileSystem/client/DFS_client.c:280-465 | when sessions do not overlap, in whatever order they are mixed, every get is right |
| DfsOverlap.WholeRunExact | DistributedFileSystem/server/DFS_server.c:253-391 | gets are right in all runs that keep some part files from being read while open iff all other parts are empty; the same when the client is held up by small socket buffers |
| DfsOverlap.GetOvertakesPut | DistributedFileSystem/client/DFS_client.c:312-347 | a client's own get overtakes its put and writes a wrong file: a run from the start, for every non-empty part and rotation and files of every size, with sockets that hold one byte |
| RunRefinesCommands.PutSessionRefines | DistributedFileSystem/client/DFS_client.c:280-346 | the steps of a put session in a row are the put command's session |
| RunRefinesCommands.GetSessionRefines | DistributedFileSystem/server/DFS_server.c:312-396 | the steps of a get session in a row are the get command's session |
| CommandRuns.PutRefines | DistributedFileSystem/client/DFS_client.c:236-349 | whatever the put command is said to leave, with any servers down, some run leaves |
| CommandRuns.GetRefines | DistributedFileSystem/client/DFS_client.c:361-474 | whatever the get command can come to, under any directory orders and with any servers skipped, some run comes to |
| CommandRuns.DirectoriesRefine | DistributedFileSystem/server/DFS_server.c:174-219 | what a list or a MKDIR session makes of a tree is done by steps that make directories |
| DfsRun.ReadSeesNow | DistributedFileSystem/server/DFS_server.c:367-379 | what goes over is what the file holds at that moment, and zeros behind its end |
| HostList.LookupStable | ProxyServer/proxyserver_with_cache.c:506-586 | a search that finds a node finds the same one after any later additions |
| HostList.HostList.AddHost | ProxyServer/proxyserver_with_cache.c:479-498 | the list stays acyclic and grows by one node at its end |
| HostList.HostList.SearchHosts | ProxyServer/proxyserver_with_cache.c:506-524 | the first node with this host name or address, or null |
| HostList.HostList.SearchHostFiles | ProxyServer/proxyserver_with_cache.c:572-586 | the first node with this file name, or null |
| HostList.HostList.Touch | ProxyServer/proxyserver_with_cache.c:300-304 | only the time stamp of one node changes |
| Url.ParseTarget | ProxyServer/proxyserver_with_cache.c:165-218 | prefix stripping, the cut scan and the port scan compute host and port |
| Url.UrlRoundTrip | ProxyServer/proxyserver_no_cache.c:111-175 | host and port of every rendered URI are recovered, with default 80 in every form |
| Url.PortText | ProxyServer/proxyserver_no_cache.c:133-160 | the port is what atoi makes of the text between the colon and the next slash, except that -1 counts as none |
| Url.MangleInPlace | ProxyServer/proxyserver_with_cache.c:219-226 | the three characters are replaced in place |
| Url.MangledIff | ProxyServer/proxyserver_with_cache.c:219-226 | the cache's file names are exactly the names without the three characters |
| BlacklistFile.HostsOfLines | ProxyServer/proxyserver_with_cache.c:599-605 | complete lines are read as they are |
| BlacklistFile.LineExact | ProxyServer/proxyserver_with_cache.c:591-607 | a line is read as it is iff it has up to 98 characters |
| BlacklistFile.LongLine | ProxyServer/proxyserver_with_cache.c:591-607 | a longer one gives its first 98 characters, loses one, and goes on behind the 99th |
| BlacklistFile.LastLineIff | ProxyServer/proxyserver_with_cache.c:599-605 | a last line is blacklisted as meant iff it ends in a newline |
| UncachedProxy.Forward | ProxyServer/proxyserver_no_cache.c:184-190 | the loop forwards exactly what the origin sends |
| UncachedProxy.ProxyGet | ProxyServer/proxyserver_no_cache.c:102-205 | the uncached proxy answers as its specification says |
| CachingProxy.AgeDecides | ProxyServer/proxyserver_with_cache.c:542-553 | comparing whole seconds: a copy is always fresh iff its true age is at most the timeout, and sometimes iff it is less than a second more |
| CachingProxy.StoreAndForward | ProxyServer/proxyserver_with_cache.c:289-295 | stores and forwards exactly what the origin sends |
| CachingProxy.SendCached | ProxyServer/proxyserver_with_cache.c:247-266 | the chunk loop sends exactly the cached file |
| CachingProxy.CreateBlacklist | ProxyServer/proxyserver_with_cache.c:591-607 | a blacklisted node per line, in order, behind what is there |
| CachingProxy.CachingProxy.constructor | ProxyServer/proxyserver_with_cache.c:53-70 | the list starts as the head and the blacklist |
| CachingProxy.CachingProxy.ProxyGet | ProxyServer/proxyserver_with_cache.c:148-412 | list, files, reply and connection change as the decision tree says |
| ProxyRequests.UncachedAnswers | ProxyServer/proxyserver_no_cache.c:95-205 | for every request as typed: a GET goes to the typed port, or 80, of the address that its host resolves to; anything else is an error |
| ProxyRequests.NotTaken | ProxyServer/proxyserver_with_cache.c:139-148 | another verb or an undefined version: an error, no connection, nothing changes |
| ProxyRequests.UnresolvedHost | ProxyServer/proxyserver_with_cache.c:346-404 | an unknown host that does not resolve: 404, nothing changes |
| ProxyRequests.UnknownHost | ProxyServer/proxyserver_with_cache.c:346-399 | an unknown host: 403 when its address is blacklisted, else fetched from the typed port of its address, kept under the mangled name, with a node |
| ProxyRequests.ForbiddenHost | ProxyServer/proxyserver_with_cache.c:229-345 | a blacklisted host: 403, nothing changes |
| ProxyRequests.KnownHost | ProxyServer/proxyserver_with_cache.c:229-345 | a known host: a fresh file is sent as it is, a stale one fetched again from its node with a new stamp, a new one fetched from the host and given a node |
| ProxyRefinement.HostSearch | ProxyServer/proxyserver_with_cache.c:506-524 | a blacklisted key meets its blacklist node first; any other key is found only with its true address |
| ProxyRefinement.FileSearch | ProxyServer/proxyserver_with_cache.c:572-586 | a search by file never returns a blacklist node |
| ProxyRefinement.ServeWell | ProxyServer/proxyserver_with_cache.c:229-404 | every request keeps the invariant: each node's file is the origin's answer at a logged fetch, its address the resolved one |
| ProxyRefinement.CacheRefines | ProxyServer/proxyserver_with_cache.c:148-412 | reply kind independent of the cache, no connection to a blacklisted address, every body an answer of the uncached proxy at a fetch stamped within the timeout |
| ProxyRefinement.ReplyKindIsFixed | ProxyServer/proxyserver_with_cache.c:229-404 | whether a reply is a body, a refusal or an error depends on request, blacklist, resolver and fopen, never on what is cached |
| ProxyRefinement.NeverConnectsToBlacklisted | ProxyServer/proxyserver_with_cache.c:346-388 | no request of a sequential run connects to a blacklisted address |
| ProxyRefinement.BoundedStaleness | ProxyServer/proxyserver_with_cache.c:243-304 | a body is the uncached answer to this request at most timeout plus fetch time ago, also among requests for one URI with other header text |
| ProxyRefinement.OneNodePerResource | ProxyServer/proxyserver_with_cache.c:313-388 | no two nodes behind the blacklist share a file, and none is found in it |
| ProxyLimits.SlowFetch | ProxyServer/proxyserver_with_cache.c:285-303 | after a fetch of d > 0 seconds from an origin that then changes, the body is none of the answers of the last timeout seconds |
| ProxyLimits.TimeoutBoundIff | ProxyServer/proxyserver_with_cache.c:243-304 | the documented bound, the timeout alone, holds in all runs iff fetches take no whole second |
| ProxyLimits.CollidingNames | ProxyServer/proxyserver_with_cache.c:219-226 | two hosts with one mangled URI get two nodes for one file and each other's answers |
| ProxyLimits.CollisionIff | ProxyServer/proxyserver_with_cache.c:219-388 | two requests for different hosts may follow each other safely in every world iff their URIs are not mangled to one name |
| ProxyLimits.CollidingRequests | ProxyServer/proxyserver_with_cache.c:219-226 | such requests exist: a.b/ and a/b/ for any two labels |
| ProxyLimits.BlacklistNodeReached | ProxyServer/proxyserver_with_cache.c:237-285 | a request whose URI becomes the blacklist file's name leads to a connection to a blacklisted name |
| ProxyLimits.BlacklistFileIff | ProxyServer/proxyserver_with_cache.c:219-237 | searches by file keep off the blacklist iff its file name has one of the characters |
| ProxyLimits.BlacklistRunIff | ProxyServer/proxyserver_with_cache.c:219-404 | over all sequential runs and worlds, colliding requests included: no connection to a blacklisted address iff no acceptable request for another host becomes the blacklist file's name, or nothing is blacklisted |
| ProxyLimits.BlacklistNameTaken | ProxyServer/proxyserver_with_cache.c:219-226 | such a request exists for every file name that is a word without the three characters and not blacklisted itself |
| BlacklistThreads.StepKeeps | ProxyServer/proxyserver_with_cache.c:229-404 | every step of every thread keeps the blacklist prefix, safe nodes behind it, and what each thread relies on |
| BlacklistThreads.BlacklistSafety | ProxyServer/proxyserver_with_cache.c:229-404 | under every interleaving: no connection to a blacklisted address, 403 without connection for a blacklisted host, no lookup lost |
| BlacklistThreads.AloneIsServe | ProxyServer/proxyserver_with_cache.c:229-404 | one uninterrupted thread does what the sequential proxy does |

## Left out

- DfsRun.ClosedIsWhole: a server process that ends while a part is open leaves a half-written file that nobody has open; in the runs such a thread stays open for ever.
- DfsRun.StepKeeps: one reading of a directory and one making of directories are single steps, every login is accepted, and of a list only the directories it makes are in the runs.
- ProxyRefinement.CacheRefines: sequential requests only, because the program does not lock cached files; the thread model makes no claim about bodies.
- DfsServer.HomeReadyIff: opendir and mkdir fail for no other reason than a missing parent; other failures end the server process.
- DfsServer.Server.HandleRequest: the blocks and payloads that a command announces arrive in full; after the end of a connection the program works on zeroed buffers.
- DfsClient.Put: a session with a refused login ends the client program; what the user sees is not modelled.
- DfsGet.Get: the output file can always be opened.
- Commands.PutAndGet: the server threads of a put have ended when the get starts; DfsOverlap is about gets that do not wait.
- Url.UrlRoundTrip: numbers that do not fit an int, which the program's atoi leaves undefined, are read as they are.
- Truncated messages, overlong fields and unterminated strings: the blocks, the 100-byte paths and the listing buffer cut a long text off, and the round trips assume that it fits.
- Error returns of read and write.
- DfsSafety.WholeRunSafety: all puts of a name carry the same bytes in the runs; new versions are modelled put by put, in NewVersions.
- DfsServer.HomeAlwaysReady: sessions one after the other; two first sessions of one user at once both find no directory, and the second mkdir fails and ends the server process (DFS_server.c:174-196), see HomeRace.
- HomeRace.RaceIff: one reading of the server's directory is a single step, and what sessions do after the check is not in these runs.
- Failed connections of the proxies, which make the program use an undefined socket.
- Sockets, thread creation, configuration files, prompts and printed output.
- MD5 itself.
- The web server and UDP programs, earlier drafts and copied snippets: no behaviour beyond the loops proved here.
