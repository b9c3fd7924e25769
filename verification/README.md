# zeusircd: a verified model

zeusircd is an IRC daemon. Its state is two tables, `Users` and `Channels`, linked by a
membership graph, with channel ranks and ban lists on top. Local commands change it, and a
connecting server receives it as a burst of text lines. This project models that core and
proves what every command keeps over every run, that the burst carries the state to a fresh
peer, and when the ban masks mean what they say. Beside it stand the self-contained parts
with proofs of their own: the glob matcher, the database-record printer, the hash buffer,
base64, the replicated log of the services database, durations, the clients' write queues and
the translation caches.

## Reading order

| file | what it models |
|---|---|
| `Text.dfy` | strings: lower-casing, `Utils::split`, decimal printing, `stoi`, trim |
| `Glob.dfy` | `Utils::Match`, the relation it decides, and subsumption between masks |
| `ChannelState.dfy` | one channel as a value: bans, ranks, the MODE letters, ChanServ's ranks |
| `NetState.dfy` | both tables as a value; every local command as a step, and what it keeps |
| `Effects.dfy` | what each local command does, written out on fields and rank sets |
| `Peer.dfy` | `Server::Parse` on values, and what each line of a peer can break |
| `Runs.dfy` | invariants over runs of local commands and peer lines in any order |
| `Burst.dfy` | `sendBurst` on values; state transfer |
| `Lines.dfy` | what each line of a peer does, from its text, written out likewise |
| `Network.dfy` | the same tables as objects with pointer sets, proved to show the value |
| `Wire.dfy`, `Commands.dfy` | `Server::Parse`, `sendBurst`, and the commands on those objects |
| `GeoJson.dfy` | `create_json_from_entry` and `to_json` of the GeoIP reader |
| `JsonReader.dfy` | a reader of JSON text, and when it gives a printed record back |
| `Bytes.dfy` | octets |
| `HashBuffer.dfy` | the streaming buffer and padding of `sha256.cpp` |
| `Base64.dfy` | `encode_base64` and `decode_base64` |
| `ReplicatedLog.dfy` | the table LAST, `Sync`, and the VERSION exchange |
| `Duration.dfy` | `PartialTime` and `UnixTime` |
| `WriteQueue.dfy` | the outgoing queues of `PlainUser` and `WebUser` |
| `Catalogue.dfy` | `getTranslation`, the choice of a catalogue, the cache of `make_string` |

Code that changes objects is modelled by classes and methods, and each method is tied to a
function on values; invariants and theorems are then proved about the functions. A class
`Network` carries the value as ghost state, and its `Valid()` says that the pointer sets show
exactly that value. A read past the end of a string or array, a null pointer, an exception and
an endless loop are outcomes of their own (`Undefined`, `None`, `Crash`, `Thrown`, `Hang`). The
two places that read a channel just deleted and may go on, the broadcast of `MakeQuit` and the
answer of SAPART, are reported in a result `touched`, with the condition under which they do.

The steps are functions that the methods and the theorems about runs both speak of. `Effects` and
`Lines` say what those functions do without them: on the fields, the member and rank sets and
the words of a line.

`dafny verify dfyconfig.toml` checks everything.

## What the proofs found in the code

- `Match` compares a `?` with the terminator of a text the mask has used up and goes on
  reading, on some user text exactly when a `?` does not stand right after a `*`
  (`Glob.ReadsPastUserTextIff`). On user texts, which have no `*`, a mask that does not end in
  `**` does so only where it means no match (`Glob.UndefinedIsNoMatch`); other masks and texts
  do so on matches too (`Glob.DoubleStarOverrunsMeant`, `Glob.StarOverrunsMeant`). A mask that
  ends in `**` denies texts it means, and no other mask does (`Glob.MatcherExact`). A mask
  with `?` may match another mask as text without covering it, and no other mask may
  (`Glob.SubsumesIffNoQuestion`); a mask without `?` may match it as text and not match what it
  matches exactly if it ends in two stars and no more (`Glob.SubsumptionIff`). A `+b` refused
  for such a mask would have banned more (`ChannelState.RefusedIsRedundantIff`).
- A half-operator can turn any operator into a voiced member with `+v`
  (`ChannelState.HalfOpDemotesOp`). A rank that has to go down takes two calls of CheckModes
  (`ChannelState.OneCallReachesIff`).
- KICK and SKICK never delete a channel: one that takes out the last member leaves an empty
  channel in the table (`NetState.KickExact`, `Peer.SkickLineLeavesEmptyIff`), where no ban is
  found (`ChannelState.RepeatsOnlyOnEmpty`).
- A CMODE from a peer gives a rank to anybody, member or not (`Peer.RankLineKeepsGraphIff`), an
  SJOIN gives a second rank (`Peer.SjoinLineKeepsExclusiveIff`), and a CMODE sets a mask again
  (`Peer.BanLineKeepsMasksIff`). CMODE `-b` of a mask that is set erases it under the iterator
  of its own loop (`Peer.UnbanLineStopsIff`); `+B` is only reached when the mask is also a nick
  (`Peer.PermanentLineFed`), and `-B` never (`Peer.PermanentStays`). SQUIT stops the server that
  receives it if anybody is on the server named (`Peer.SquitLineStopsIff`).
- A quit looks only at the user's own channels, so a rank it held in another one stays as a
  pointer to nobody (`NetState.QuitKeeps`); two lines of a peer do that (`Peer.OrphanHappens`).
  A user later allocated at that address enters with the rank (`Network.Network.AddUser`).
- `MakeQuit` and SAPART read a channel they have deleted, exactly when the user was its only
  member (`NetState.QuitReadsDeletedIff`, `Commands.Sapart`).
- JOIN of keyed channels with fewer keys than channels reads past its words
  (`NetState.JoinCommandReadsPastKeys`).
- Bans are not consulted for channels that are not registered (`NetState.BanKeepsOut`).
- The burst carries one rank per member, so ranks arrive only if they are exclusive and held by
  members; an away text only if it is single-spaced and trimmed; login and ban times only if
  they fit an int; a mask only if no search of the peer for it reads past the end; a channel
  only if it has members.
- The log exchange does not tolerate a write while it is under way, unless the peer lacks
  nothing (`ReplicatedLog.LateWriteAgreesIff`), and a repeated `DB`
  line is executed twice although it is logged once (`ReplicatedLog.DbLine`).
- `PartialTime` overflows from 2147558400 seconds on. The length field of the hash has 32 bits,
  so the padding is the standard one only below 2^29 bytes, and an update within 64 bytes of
  2^32 loses buffered bytes.
- Texts of a GeoIP record are printed without escapes, a negative INT32 as a large number and a
  bare text as a key: what is printed is JSON of the record exactly when none of these occurs and
  no number is an infinity (`JsonReader.ReadsBackIff`).
- `isdigit(c) == true` in `UnixTime` is read as the predicate it is meant to be; taken
  literally it depends on the C library.

## Model

| member | source | states |
|---|---|---|
| `Glob.MatchSound` | src/Utils.cpp:50-73 | a positive answer is always right: the text is one the mask means (`*` any run, `?` any one character), for every mask and every text |
| `Glob.NoIsRight` | src/Utils.cpp:50-73 | a negative answer is right for masks that do not end in `**` and texts without `*` |
| `Glob.UndefinedIsNoMatch` | src/Utils.cpp:50-73 | for masks that do not end in `**` and texts without `*`, the comparison that steps past the terminator only happens on texts the mask does not mean |
| `Glob.DoubleStarOverrunsMeant` | src/Utils.cpp:50-73 | concrete input: `*a?**` steps past the terminator of `aa`, which it means |
| `Glob.StarOverrunsMeant` | src/Utils.cpp:50-73 | concrete input: `*?` steps past the terminator of `*`, which it means |
| `Glob.MatchIsWild` | src/Utils.cpp:50-73 | on those masks and texts the matcher says yes exactly when the declarative wildcard relation holds |
| `Glob.DefinedWithoutQuestion` | src/Utils.cpp:50-73 | without `?` in the mask the matcher never reads past a terminator |
| `Glob.MatchReflexive` | src/Utils.cpp:50-73 | every mask matches itself taken as text, so a ban already set is always found |
| `Glob.WildSubsumes` | src/Utils.cpp:50-73 | if a `?`-free mask matches a second mask as text, it means every text the second one means |
| `Glob.Subsumption` | src/Utils.cpp:50-73 | the same on the answers of the matcher, for star-free texts and an existing mask that does not end in `**` |
| `Glob.SubsumptionIff` | src/Utils.cpp:50-73 | on the answers of the matcher, over every new mask and every star-free text: a `?`-free mask matches whatever is matched by a mask it matches as text if and only if it does not end in exactly two stars; with three it does |
| `Glob.MatcherExact` | src/Utils.cpp:56-60 | the matcher decides what a mask means, on all star-free texts, if and only if the mask does not end in `**`; the comment in the code asks for more, that no `**` occurs at all |
| `Glob.DoubleStarWantsMore` | src/Utils.cpp:56-60 | a mask ending in `**` only matches texts longer than the shortest it means |
| `Glob.ReadsPastEndIffQuestion` | src/Utils.cpp:62-65 | on some text the matcher steps past the terminator if and only if the mask has a `?` |
| `Glob.ReadsPastUserTextIff` | src/Utils.cpp:62-65 | on some text of a user, which has no `*`, it does so if and only if some `?` of the mask does not stand right after a `*` |
| `Glob.SubsumesIffNoQuestion` | src/Utils.cpp:62-65 | matching a mask as text means covering it, for every mask there may be and every star-free text, if and only if the existing mask has no `?` |
| `Text.Split` | src/Utils.cpp:236-247 | the loop of find calls collects exactly the maximal delimiter-free runs, in order |
| `Text.TokensOfJoin` | src/Utils.cpp:236-247 | splitting a line built from space-free words with single spaces gives the words back |
| `Text.RejoinExact` | src/ParserServer.cpp:342-345 | gluing the words of a text back with single spaces restores it exactly when it has no leading, trailing or doubled space |
| `Text.StoiOfToString` | src/ParserServer.cpp:87 | a printed integer is read back by `stoi` exactly when it fits a 32-bit int; otherwise `stoi` throws |
| `Text.CaseIs` | src/User.cpp:186-190 | lower and upper case map the 26 letters of the alphabet to each other and change no other character |
| `Text.SameLower` | src/User.cpp:186-190 | words that differ in the case of letters only have one key, and lower-casing a key changes nothing |
| `Text.TrimIs` | src/Parse.cpp:34-49 | trimming takes off tabs, line ends, form feeds and blanks at both ends and nothing else |
| `Text.StoiIs` | src/ParserServer.cpp:87 | `stoi` passes over blanks, takes one sign and the digits after it, and stops at anything else; it throws outside the 32-bit range |
| `Text.StoiNone` | src/ParserServer.cpp:87 | without a digit there it throws |
| `ChannelState.IsBanMeaning` | src/Channel.cpp:305-321 | where every `?` stands after a `*` and no mask ends in `**`, the verdict is the union of what the masks of both lists mean, whatever the order in which they are looked at; an empty channel bans nobody |
| `ChannelState.RefusedBanIsRedundant` | modules/mode.cpp:84-86 | where no mask of the channel has a `?` or ends in `**`, a `+b` or `+B` refused as already existing could not have banned anybody who was not banned |
| `ChannelState.RefusedIsRedundantIff` | modules/mode.cpp:84-86 | where one `?`-free mask is set, the same holds on the answers of the matcher, for every refused mask and every user text, if and only if the mask does not end in exactly two stars |
| `ChannelState.QuestionRefusesMore` | modules/mode.cpp:84-86 | concrete channel: with `a?` set, `+b a*` is refused although it would have banned `abc` |
| `ChannelState.TwoStarsRefuseMore` | modules/mode.cpp:84-86 | concrete channel: with `a**` set, `+b a*` is refused although it would have banned `a` |
| `ChannelState.ScannerPairing` | modules/mode.cpp:68-79 | the k-th recognised letter takes the k-th parameter and the last sign before it; exactly as many letters act as there are parameters for |
| `ChannelState.EventAt` | modules/mode.cpp:68-79 | the same from the middle of a scan: from any sign and parameter index on |
| `ChannelState.RankLetterKeeps` | modules/mode.cpp:140-272 | one rank letter keeps the members and the ban lists, ranks within the members, and ranks exclusive |
| `ChannelState.RankLetterExact` | modules/mode.cpp:140-272 | a `+` let through by the guards leaves the target that rank alone, a `-` let through takes that rank only; otherwise, and for everybody else, nothing moves; who is let through is in `Effects.OneRankLetter` |
| `ChannelState.UnbanExact` | modules/mode.cpp:99-106 | removing a mask removes no other ban, and where masks are distinct the mask is gone |
| `ChannelState.ModeKeepsMasks` | modules/mode.cpp:80-139 | on a channel with members no sequence of ban letters ever sets a mask twice, in one list or across both, in any case of its letters |
| `ChannelState.RepeatsOnlyOnEmpty` | src/Channel.cpp:305-307 | setting a mask repeats one exactly on a channel without members, where no ban is found, when the mask is set already and the list has room |
| `ChannelState.ModeKeepsRanks` | modules/mode.cpp:68-274 | so does a whole MODE command, whatever the letters, signs and parameters |
| `ChannelState.ModeCannotEscalate` | modules/mode.cpp:140-272 | a caller that is neither channel operator nor IRC operator adds nobody to the operators or half-operators over a whole command |
| `ChannelState.HalfOpDemotesOp` | modules/mode.cpp:228-250 | what the guards do let through: a half-operator turns any operator into a voiced member with `+v`, although its `-o` is refused |
| `ChannelState.ModeAnnounced` | modules/mode.cpp:140-272 | the CMODE lines sent out by the rank letters, in any mix with ban letters, replayed on a channel with the same ranks give the ranks the sender ends with |
| `ChannelState.CheckModesConverges` | src/services.cpp:65-130 | two calls always reach exactly the rank the access calls for, one is enough from no rank, and a call changes and announces nothing exactly when the target is reached |
| `ChannelState.OneCallReachesIff` | src/services.cpp:96-114 | one call reaches the target if and only if no rank has to go down to another rank: not from operator to half-operator or voice, nor from half-operator to voice |
| `ChannelState.CheckModesNeedsTwo` | src/services.cpp:96-114 | in exactly those cases the member is left without any rank by the first call |
| `ChannelState.CheckModesKeeps` | src/services.cpp:65-130 | CheckModes keeps members, ranks within members, and exclusive ranks |
| `ChannelState.CheckModesAnnounced` | src/services.cpp:65-130 | its announcements, replayed elsewhere, give the same ranks |
| `ChannelState.ServiceRankExact` | modules/cs.cpp:491-573 | after OP..DEVOICE the target holds that rank alone, or no longer, and nobody else's ranks move |
| `ChannelState.ServiceRankKeeps` | modules/cs.cpp:491-573 | OP..DEVOICE keep members, ranks within members, and exclusive ranks |
| `ChannelState.ServiceRankAnnounced` | modules/cs.cpp:491-573 | their announcements, replayed elsewhere, give the same ranks |
| `NetState.QuitKeeps` | src/User.cpp:79-93 | quitting keeps memberships, keys, ranks within members, exclusive ranks, non-empty channels and distinct masks; every rank pointer leads to a user of the nick table afterwards if and only if the user held no rank in a channel it was not in, since other channels are not looked at |
| `NetState.QuitReadsDeletedIff` | src/User.cpp:79-93 | the broadcast that follows each `quit` reads a deleted channel exactly when the user is the only member of some channel |
| `NetState.CycleSettles` | src/User.cpp:111-142 | `Cycle` changes something exactly for a user in channels whose virtual host is not the one the services give; it then has that one, no other field changes, and a second `Cycle` does nothing |
| `NetState.CycleKeeps` | src/User.cpp:111-142 | `Cycle`, with `CheckModes` in every channel, keeps every invariant |
| `NetState.NickKeeps` | modules/nick.cpp:200-241 | NICK keeps every invariant through all it does: nick and key, `CheckModes` in every channel, cloak, the flag of IRC operators, `Cycle` |
| `NetState.RekeyKeeps` | src/User.cpp:166-184 | renaming moves the user to the key of its new nick and keeps every membership and rank |
| `NetState.LeaveKeeps` | src/User.cpp:214-220 | taking somebody out of a channel leaves it empty exactly when it was the only member |
| `NetState.JoinOneKeeps` | modules/join.cpp:43-149 | one channel of a JOIN, through every branch (refused, new, joined, registered), keeps memberships, ranks within members, exclusive ranks, non-empty channels and distinct masks |
| `NetState.JoinAllKeeps` | modules/join.cpp:43-149 | so does the loop over all the names |
| `NetState.ForceAllKeeps` | modules/sajoin.cpp:47-108 | so does SAJOIN, which asks neither modes, keys nor bans |
| `NetState.JoinReadsPastKeys` | modules/join.cpp:104-116 | where no mask has a `?`, one channel of JOIN fails exactly when it wants a key and every key word is used up: it then reads past its words |
| `NetState.JoinCommandReadsPastKeys` | modules/join.cpp:41-116 | so does the whole command, exactly when that happens at some name after the names before it |
| `NetState.BanKeepsOut` | modules/join.cpp:59-78 | a user banned under its cloak or its virtual host, no IRC operator, becomes a member by JOIN of an existing channel if and only if the channel is not registered and the name is not turned away |
| `NetState.BannedGetsIn` | modules/join.cpp:59-67 | concrete input: a user banned by `*` joins an unregistered channel |
| `NetState.PartKeeps` | src/Channel.cpp:23-45 | PART keeps the state coherent, and deletes the channel it empties |
| `NetState.KickKeeps` | modules/kick.cpp:48-49 | KICK leaves an empty channel in the table exactly when its guard lets through a kick of the only member, and keeps everything else |
| `NetState.KickExact` | modules/kick.cpp:48-49 | with ranks exclusive and held by members that is the sole half-operator, no IRC operator, kicking itself |
| `NetState.ModeKeeps` | modules/mode.cpp:38-274 | a MODE command behind its guards keeps memberships, ranks within members, exclusive ranks, non-empty channels and, on them, distinct masks |
| `NetState.RankMoveExact` | src/Channel.cpp:165-235 | giving a rank to any user of the table loses exclusive ranks exactly when the user holds another one, and ranks within members exactly when the user is no member |
| `NetState.RemoteJoinExact` | src/ParserServer.cpp:135-165 | SJOIN keeps everything else, and loses exclusive ranks exactly when it names a rank for somebody who holds a different one in that channel |
| `NetState.StepKeeps` | src/User.cpp:79-220 | every local command keeps every invariant, but for the empty channel left exactly by a KICK of the last member, and a rank left to nobody exactly by a quit of somebody who holds one in a channel it is not in |
| `Effects.OneRankLetter` | modules/mode.cpp:44-272 | the guard table of MODE with one rank letter on a known nick, on the rank sets and the operator flag: for o, h and v, each sign, every caller (operator, half-operator, IRC operator, none; registered channel or not) and every rank of the target, in which rank sets the target stands afterwards; members, masks and everybody else's ranks, and every user and other channel, are as they were |
| `Effects.RankAnnounced` | modules/mode.cpp:140-272 | what is announced for one rank letter, in order: the ranks the target held taken first, then the one given; nothing where the caller may not or nothing changes; `-h` of an operator even where there is none to take |
| `Effects.OneBanLetter` | modules/mode.cpp:80-139 | MODE with one ban letter: for the same callers, `b` adds to or removes from the one list and `B` the other; a mask that some ban matches as text is not added, nor one beyond maxbans; the first ban written exactly so is removed |
| `Effects.LettersInTurn` | modules/mode.cpp:68-79 | a command of many letters is its letters in turn: the second part acts on what the first leaves, under its last sign and from its next parameter |
| `Effects.NoSignTakes` | modules/mode.cpp:69-79 | a letter with no sign before it acts as under a minus |
| `Effects.ModeRefused` | modules/mode.cpp:43-52 | whatever the letters, MODE of an unknown user or channel, of an unregistered channel by anybody but an IRC operator, or by somebody who is neither operator, half-operator nor IRC operator changes nothing |
| `Effects.CheckedOnce` | src/services.cpp:65-168 | one CheckModes from no rank, in whatever channels: a stored VOP makes exactly a voice, HOP a half-operator, AOP and SOP an operator, in any case of the letters and before being founder or IRC operator, who are operators; else AUTOVOICE makes a voice and its absence no rank; NOOP and non-members are left alone, and so is everything else |
| `Effects.CheckedTwice` | src/services.cpp:65-168 | after two calls the same from any rank, where ranks are exclusive |
| `Effects.NamesExact` | src/Utils.cpp:293-301 | a channel name starts with `#` and has no quote, apostrophe, semicolon, at sign, star, slash, comma or full stop |
| `Effects.JoinTable` | modules/join.cpp:43-149 | JOIN of a registered channel, where no mask has a `?`, by somebody who is no member: it becomes one if and only if the limits, ONLYREG, ONLYSECURE, ONLYWEB, ONLYACCESS, country and akick, the key word, both ban verdicts and the flood let it in, written on the fields, the words and the verdicts, with what IRC operators are exempt from; the refused leave the state as it was, and the key index is fixed |
| `Effects.JoinRank` | modules/join.cpp:130-143 | whoever has entered so has the rank the services give for its access, and no other |
| `Effects.JoinUnregistered` | modules/join.cpp:59-79 | an unregistered channel takes in everybody within the limits, without a rank; whoever opens it is its operator; it keeps the name it was opened under |
| `Effects.JoinNothing` | modules/join.cpp:43-63 | a member gets nothing from a JOIN, nor does anybody outside the limits |
| `Effects.JoinStep` | modules/join.cpp:40-43 | a whole JOIN of one channel takes its key from the third word on |
| `Effects.JoinsInTurn` | modules/join.cpp:42-43 | several channels are taken in turn, with the keys that are left |
| `Effects.SajoinOne` | modules/sajoin.cpp:32-105 | SAJOIN of one channel: only by an IRC operator, and then whoever is named enters for any name that is a channel's and no longer than allowed, whatever its modes, keys and bans; with the rank of the services, or as operator of a new unregistered channel |
| `Effects.SajoinsInTurn` | modules/sajoin.cpp:45-47 | several channels are taken in turn |
| `Effects.PartSo` | src/Channel.cpp:23-45 | PART, and SAPART by an IRC operator only: a member is out of the channel with every rank, a channel left empty is gone, and nothing else changes; anybody else's changes nothing |
| `Effects.KickSo` | modules/kick.cpp:48-49 | KICK on the rank sets and the operator flags: the victim is out if and only if the kicker is operator or half-operator, the victim a member and no IRC operator, and no channel operator unless the kicker is an IRC operator; the channel stays, even empty |
| `Effects.KickNothing` | modules/kick.cpp:40-43 | KICK by or of somebody unknown, or from an unknown channel, changes nothing |
| `Effects.QuitSo` | src/User.cpp:79-109 | QUIT: the user is gone from the table and from every channel it was in; a channel is gone exactly if the user was its only member; everything else is as it was |
| `Effects.QuitLeft` | src/User.cpp:79-109 | and a rank is left to nobody in exactly the channels where it held one without being in them |
| `Effects.NickMoveSo` | src/User.cpp:166-184 | a new nick: the entry stands under the new key with everything but the nick, and that key for the old one in every member and rank set |
| `Effects.NickTaken` | modules/nick.cpp:239-240 | NICK to a nick that somebody else has changes nothing |
| `Effects.NickSo` | modules/nick.cpp:200-238 | NICK otherwise: a change of case changes the nick alone; a new key comes with the cloak of the host, the IRC-operator flag as the services say for the new nick, and the virtual host of `Cycle` |
| `Effects.NickRank` | modules/nick.cpp:207-238 | and, unless it makes or unmakes an IRC operator, a member without a rank has what the services say for the new nick, in every channel of the user and without NOOP |
| `Effects.CycleSo` | src/User.cpp:111-123 | `Cycle`: nothing outside channels or for a virtual host that stays; else the one of the services, or the cloak for a nick that is not registered; ranks move in the user's channels alone, and only its own |
| `Effects.CycleRank` | src/User.cpp:122-139 | with a new virtual host a member without a rank has what the services say |
| `Effects.NewSo` | src/User.cpp:152-164 | a user enters under the lower-cased nick, in no channel; a nick that is taken stays as it is |
| `Effects.FieldSo` | src/User.cpp:42-59 | away sets the away text alone, and setMode the one flag of its letter |
| `Effects.ServiceSo` | modules/cs.cpp:491-573 | the six ChanServ commands on the rank sets: a member ends with the rank given alone, or without the one taken; of somebody outside only a rank it holds is moved; nobody else's |
| `Effects.AutoSo` | src/services.cpp:65-168 | `CheckModes` as a step of its own: a member without a rank has what the services say; members, masks and other users' ranks stay |
| `Peer.FeedKeeps` | src/ParserServer.cpp:31-417 | any line a peer sends leaves the state coherent (memberships at both ends, keyed tables, no rank under a key that is nobody's) if it is taken at all, and loses each further invariant exactly in the case named for that line: a CMODE rank for a non-member, an SJOIN or CMODE rank beside another one, an SKICK of the only member, a CMODE mask that is set, a QUIT, SKILL or colliding SNICK of somebody who holds a rank outside its channels |
| `Peer.RankLineKeepsGraphIff` | src/ParserServer.cpp:197-229 | a CMODE that gives a rank keeps ranks within the members if and only if it names a member; memberships and table keys hold in any case |
| `Peer.SjoinLineKeepsExclusiveIff` | src/ParserServer.cpp:135-165 | an SJOIN line with a rank keeps ranks exclusive if and only if the user holds no other rank there |
| `Peer.SkickLineLeavesEmptyIff` | src/ParserServer.cpp:315-328 | an SKICK line leaves no empty channel if and only if the victim is not the only member |
| `Peer.BanLineKeepsMasksIff` | src/ParserServer.cpp:230-232 | a CMODE that sets a mask keeps masks distinct if and only if it is not set yet |
| `Peer.UnbanLineStopsIff` | src/ParserServer.cpp:233-239 | a CMODE `-b` never removes a mask: it stops the server exactly when a ban is written so, which is erased under the iterator of the loop |
| `Peer.PermanentLineFed` | src/ParserServer.cpp:203-242 | a CMODE `+B` sets the mask exactly when it is also the nick of a user |
| `Peer.PermanentStays` | src/ParserServer.cpp:243-249 | a CMODE `-B` changes nothing: its branch repeats the condition of `-b` |
| `Peer.StrayHappens` | src/ParserServer.cpp:212-214 | concrete line: `CMODE x #c +o bob` makes an operator of bob outside #c |
| `Peer.ClashHappens` | src/ParserServer.cpp:154-163 | concrete line: `SJOIN alice #c +v` gives the operator alice a second rank |
| `Peer.EmptyHappens` | src/ParserServer.cpp:326-328 | concrete line: `SKICK bob #c alice bye` leaves #c empty in the table |
| `Peer.RepeatHappens` | src/ParserServer.cpp:230-232 | concrete line: `CMODE x #c +b *` sets a mask that is set |
| `Peer.QuitLineOrphansIff` | src/ParserServer.cpp:258-271 | a QUIT line leaves a rank pointer to nobody if and only if the user holds a rank in a channel it is not in |
| `Peer.RankThenQuitIff` | src/ParserServer.cpp:197-271 | a CMODE that gives a rank and then the QUIT of its holder leave no rank pointer to nobody if and only if the CMODE named a member who holds no rank outside its channels |
| `Peer.OrphanHappens` | src/ParserServer.cpp:197-271 | concrete lines: `CMODE x #c +o bob`, with bob outside #c, and `QUIT bob` leave bob's pointer among the operators of #c |
| `Peer.SquitLineStopsIff` | src/Server.cpp:286-295 | an SQUIT line stops the server exactly when somebody is on the server it names: the loop erases that user under its own iterator |
| `Peer.ChangesFed` | src/ParserServer.cpp:212-229 | the lines for a sequence of rank changes, parsed by a peer, are those changes replayed on its channel: with the announcements above, a peer with the same channel ends with the sender's ranks |
| `Lines.UmodeLine` | src/ParserServer.cpp:175-196 | `UMODE nick +o` as text, and so for w, r and z: exactly that flag of the named user equals the sign being `+`; every other field, user and channel is as it was; any other letter, a short line or an unknown nick changes nothing |
| `Lines.SuserLine` | src/ParserServer.cpp:104-112 | SUSER sets the ident of the named user and nothing else |
| `Lines.WebircLine` | src/ParserServer.cpp:375-384 | WEBIRC sets its host, and its cloak from that, and nothing else |
| `Lines.AwayLine` | src/ParserServer.cpp:329-347 | AWAY with words sets the trimmed text, without words clears it |
| `Lines.NickLine` | src/ParserServer.cpp:272-287 | NICK with both words: to a free nick the user stands under its new key everywhere; a taken one, or an unknown user, changes nothing |
| `Lines.QuitLine` | src/ParserServer.cpp:258-271 | QUIT: the user is out of the table and of its channels, those it leaves empty are gone |
| `Lines.SkillLine` | src/ParserServer.cpp:401-415 | SKILL does the same |
| `Lines.VhostLine` | src/ParserServer.cpp:385-393 | VHOST: the virtual host after `Cycle`, and ranks moved in the user's channels alone |
| `Lines.SnickLine` | src/ParserServer.cpp:72-103 | SNICK of a free nick: one new user, each field the word at its place, each flag set if its letter stands before any `x`, in no channel |
| `Lines.SnickTaken` | src/ParserServer.cpp:73-79 | SNICK of a taken nick puts a local user out and leaves a remote one; a short line changes nothing |
| `Lines.SjoinLine` | src/ParserServer.cpp:135-165 | SJOIN: the user is a member at both ends, of a channel opened under the name sent where it was missing, with the rank of the letter besides those it holds |
| `Lines.SjoinNothing` | src/ParserServer.cpp:136-142 | a short SJOIN or one of an unknown nick changes nothing |
| `Lines.SpartLine` | src/ParserServer.cpp:166-174 | SPART: a member is out with every rank and an emptied channel gone; a known user and an unknown channel are a null pointer |
| `Lines.SkickLine` | src/ParserServer.cpp:315-328 | SKICK: the victim is out of the channel, which stays |
| `Lines.BanLine` | src/ParserServer.cpp:113-134 | SBAN and SPBAN: the mask with its setter and time joins the one list or the other unless a ban matches it; a time that is no int throws, where the mask is new |
| `Lines.CmodeRankLine` | src/ParserServer.cpp:197-229 | CMODE of a rank letter: the named user has that rank or not as the sign says, member or not, and nothing else changes |
| `Lines.CmodeBanLine` | src/ParserServer.cpp:230-249 | CMODE of a ban letter: `+b` adds the mask whatever is there, `-b` stops the server if a ban is written so, `+B` adds only if the mask is a nick too, `-B` does nothing |
| `Lines.CmodeNothing` | src/ParserServer.cpp:198-211 | CMODE of too few words, for an unknown channel, for a nick that is missing or unknown, and for any other letter changes neither table |
| `Lines.CmodeNoMask` | src/ParserServer.cpp:230-239 | a ban letter without a mask reads a word that is not there: at once with `+`, with `-` if there is any ban |
| `Lines.TextLine` | src/ParserServer.cpp:288-314 | PRIVMSG and NOTICE for somebody who is not there are a null pointer; they change nothing otherwise |
| `Lines.StoreLine` | src/ParserServer.cpp:353-374 | MEMO with a time that is no int throws, MEMODEL waits for ever at a memo for somebody else, SQUIT of a server with users stops; they change neither table |
| `Lines.OtherLine` | src/ParserServer.cpp:31-71 | every other line changes neither table, but for a DB line too short |
| `Lines.GreetingRead` | src/Server.cpp:200-204 | the greeting as a peer splits it: HUB and its name, SERVER and its name, and VERSION only outside a cluster |
| `Lines.MemoRead` | src/Server.cpp:248-250 | a memo line as a peer splits it: sender, receptor, the time read back by `stoi`, and the words of the text |
| `Lines.BurstEnds` | src/Server.cpp:199-251 | the greeting opens the burst, and the memos, in their order, close it |
| `Runs.NextKeeps` | src/ParserServer.cpp:31-417 | one step of a run, local or from a peer, keeps the state coherent and loses each invariant exactly by its lapse |
| `Runs.RunKeeps` | src/User.cpp:28-29 | over every run of local commands and peer lines in any order each invariant lasts as long as its lapse does not occur |
| `Runs.OrphansNeedStrays` | src/User.cpp:79-93 | in any run from a state with ranks held by members, no rank is left to nobody unless one was given to a non-member before |
| `Runs.Reachable` | src/User.cpp:28-29 | every state reachable from empty tables: u is in c's members exactly when c is in u's channels, each table is keyed by the lower-cased name of its entries, no rank stands under a key that is nobody's; and ranks within members, exclusive ranks, non-empty channels, distinct masks, and rank pointers that lead to users of the nick table, each until its lapse, the last not before a rank was given to a non-member |
| `Runs.LocalRunsLapse` | modules/mode.cpp:140-272 | runs of local commands alone can only leave a channel empty, and that only by KICK; where ranks are held by members they leave none to nobody |
| `Runs.PeerKeepsCoherent` | src/ParserServer.cpp:31-417 | whatever lines a peer sends, well-formed or not and in any order: if they are taken, memberships and table keys hold |
| `Burst.FlagsRoundTrip` | src/ParserServer.cpp:88-101 | the mode word built by the burst sets exactly the flags r, z, w and o of the user |
| `Burst.SnickFed` | src/ParserServer.cpp:72-103 | a SNICK line, split and parsed, stores the user with every field it was built from |
| `Burst.SnickTakenIff` | src/ParserServer.cpp:87 | of a user of space-free words only a login time that does not fit an int stops the peer, and it always does |
| `Burst.BanTimeStopsIff` | src/Channel.cpp:405-419 | a ban's time that does not fit stops the peer exactly when no ban there matches the mask already |
| `Burst.AwaySurvives` | src/ParserServer.cpp:329-347 | an away text arrives unchanged exactly when it is non-empty, single-spaced and trimmed |
| `Burst.SjoinFed` | src/Server.cpp:229-238 | an SJOIN line makes the peer join that user to that channel with the one rank it names |
| `Burst.BanFed` | src/ParserServer.cpp:113-134 | an SBAN or SPBAN line adds the mask unless the peer's bans already match it, and stops the peer exactly when looking for it reads past the end |
| `Burst.UsersArrive` | src/Server.cpp:206-224 | the lines for any users, in any order, build exactly their entries in the nick table |
| `Burst.MembersArrive` | src/Server.cpp:229-238 | the SJOIN lines of a channel, in any order, build its members, both ends of each membership, and ranks |
| `Burst.BansArrive` | src/Server.cpp:239-246 | the ban lines of a channel are absorbed one after the other, up to one whose search reads past the end |
| `Burst.ChannelArrives` | src/Server.cpp:226-247 | all lines of a channel bring the peer from the channels already complete to one more, unless a mask does not arrive |
| `Burst.EmptyChannelArrives` | src/Server.cpp:226-247 | those of a channel without members are ban lines that the peer takes no notice of |
| `Burst.BurstTransfers` | src/Server.cpp:199-251 | state transfer through the text: the lines of any coherent sendable state, whatever its masks, with or without empty channels, and in any walking order, make a fresh peer hold the transferred state (every user; every channel that has members), or stop it exactly when some mask does not arrive |
| `Burst.ChannelsAgreeIff` | src/Server.cpp:226-247 | the channel tables then agree if and only if the origin has no empty channel |
| `Burst.NoQuestionsArrive` | src/ParserServer.cpp:113-134 | masks without `?` always arrive |
| `Burst.RanksArriveIffExclusive` | src/Server.cpp:230-236 | members always arrive; the ranks of a channel arrive unchanged if and only if they are exclusive and held by members |
| `Burst.BanVerdictSurvives` | src/ParserServer.cpp:113-134 | where masks have no `?` and do not end in `**`, the peer may hold fewer of them, yet it bans exactly the same star-free user masks |
| `Burst.BurstCarriesGraph` | src/Server.cpp:199-251 | for any masks, where ranks are exclusive and held by members: the burst is taken exactly when every mask arrives, and the peer then has the same users, all remote, and every channel that has members, with the same name, members and ranks; no channel is missing exactly if none was empty |
| `Burst.BurstRebuilds` | src/Server.cpp:199-251 | the whole claim, where also masks have no `?` and do not end in `**`: taken, same users, same channels but for empty ones, members and ranks, and the same ban verdict on every user mask |
| `Network.User.SetAway` | src/User.cpp:222-233 | both away fields are set and the object still shows its entry |
| `Network.Channel.InsertUser` | src/Channel.cpp:124-131 | the pointer set gains the member and still shows the state, ranks untouched |
| `Network.Channel.RemoveUser` | src/Channel.cpp:133-163 | the member leaves the member set and every rank set; nobody else moves |
| `Network.Channel.Give` | src/Channel.cpp:165-224 | the three Give functions add any user, member or not, to that rank and to no other |
| `Network.Channel.Take` | src/Channel.cpp:179-235 | the three Remove functions take that rank only |
| `Network.Channel.IsBan` | src/Channel.cpp:305-321 | the loops over both ban lists of the object give the verdict of the state |
| `Network.Network.AddUser` | src/User.cpp:152-164 | a free nick is entered under its lower-cased key, with the rank of every set in which the user's address still stands; a taken one leaves both tables unchanged and is reported |
| `Network.Network.ChangeNickName` | src/User.cpp:166-184 | refused, changing nothing, exactly when the new nick is taken or the old one unknown; otherwise the user moves to the new key |
| `Network.Network.NickMove` | modules/nick.cpp:200-219 | a change of case keeps the key although ChangeNickName refuses; another free nick moves the key; a taken one changes nothing |
| `Network.Network.Join` | src/Channel.cpp:47-61 | joining creates the channel when it is missing and sets both ends of the membership; the object graph stays valid |
| `Network.Network.Part` | src/Channel.cpp:23-45 | leaving clears both ends and every rank, and erases the channel exactly when the user was its only member |
| `Network.Network.MakeQuit` | src/User.cpp:79-93 | the erasing loop over the user's channels, in any order, ends in the state the quit leads to; in the channels that remain a rank pointer to the user remains exactly where it was held without membership, so all rank pointers lead to users of the nick table exactly if there was no such channel; the broadcast reads a deleted channel exactly when the user was alone somewhere |
| `Wire.Parse` | src/ParserServer.cpp:31-417 | the dispatcher on objects does to both tables what the line does to the state, and fails or hangs exactly where it does; each line is written out under `Lines` |
| `Wire.ParseCmode` | src/ParserServer.cpp:197-257 | the branches of CMODE on objects: ranks to anybody, bans without a search, and `-b` of a mask that is set erasing it under its own iterator |
| `Wire.ParseFields` | src/ParserServer.cpp:175-196 | UMODE, SUSER and WEBIRC on objects do what `Lines.UmodeLine`, `Lines.SuserLine` and `Lines.WebircLine` say of their texts |
| `Wire.ParseVhost` | src/ParserServer.cpp:385-393 | VHOST is `Cycle` of the named user, and nothing for an unknown nick |
| `Wire.SendBurst` | src/Server.cpp:199-251 | the greeting, the loops over the tables and pointer sets, and the memos send the burst of the state in some walking order, each user, channel and member once |
| `Wire.ParseAll` | src/ParserServer.cpp:31-417 | a peer that parses lines one after another ends in the state they lead to, or stops at the line that stops them |
| `Wire.Synchronise` | src/Server.cpp:199-251 | end to end on objects: an origin's burst, whatever its masks and with or without empty channels, parsed by an empty peer makes the peer show the transferred state, or crash exactly when some mask does not arrive; the channel tables agree exactly if the origin has no empty channel; the origin is unchanged |
| `Commands.CheckModes` | src/services.cpp:65-130 | the calls on the channel's pointer sets and the announcements sent are those of the state function |
| `Commands.CheckModesAll` | modules/nick.cpp:208-211 | the loop over the user's channels, in any order, is `CheckModes` in each of them once; what that leaves is in `Effects.CheckedOnce` and `Effects.CheckedTwice` |
| `Commands.Cycle` | src/User.cpp:111-142 | `Cycle` on objects is the state's step |
| `Commands.NickCommand` | modules/nick.cpp:200-241 | `cmdNick` on objects, with what the services answer as arguments, is in each of its branches the step written out in `Effects.NickSo` and `Effects.NickRank` |
| `Commands.ServiceRank` | modules/cs.cpp:491-573 | so are those of the six ChanServ commands |
| `Commands.Kick` | modules/kick.cpp:33-53 | KICK with its guard changes the tables as written out in `Effects.KickSo` |
| `Commands.BanLetter` | modules/mode.cpp:80-139 | the branches of b and B on the ban lists of the object: refused when matched, bounded by maxbans, removed by exact mask |
| `Commands.RankLetter` | modules/mode.cpp:140-272 | the branches of o, h and v on objects are those tabled in `Effects.OneRankLetter` and `Effects.RankAnnounced`: who may, what is taken first, what is announced |
| `Commands.LetterLoop` | modules/mode.cpp:68-274 | the loop with its mutable sign and parameter index applies exactly the paired letters and never reads a parameter that is not there |
| `Commands.Mode` | modules/mode.cpp:33-274 | MODE with parameters changes the tables as the step tabled by `Effects.OneRankLetter`, `Effects.OneBanLetter` and `Effects.LettersInTurn`; the changes it sends, replayed on the channel as it was, give the ranks as they are |
| `Commands.JoinOne` | modules/join.cpp:44-148 | one channel of JOIN on objects, in each branch the step tabled in `Effects.JoinTable`, `Effects.JoinUnregistered` and `Effects.JoinNothing`: refusals, creation, membership, automatic rank, key index |
| `Commands.Sajoin` | modules/sajoin.cpp:30-108 | SAJOIN on objects is the state's step: for an IRC operator only, each name entered with its creation and automatic rank |
| `Commands.Sapart` | modules/sapart.cpp:26-52 | SAPART on objects is the state's step; its answer reads the name of a deleted channel exactly when an IRC operator names the only member of a channel |
| `Commands.Join` | modules/join.cpp:34-149 | the JOIN loop on objects is the step of `Effects.JoinStep` and `Effects.JoinsInTurn`; it stops where the source reads past its words |
| `GeoJson.CellPrints` | src/GeoLite2PP.cpp:149-245 | a value of a well-formed record is printed as the recursive reference printer says, and the walk stops at the first entry after it |
| `GeoJson.EnterMembers` | src/GeoLite2PP.cpp:149-245 | a map counted by its pairs prints its `"key" : value` members, commas only between them |
| `GeoJson.EnterItems` | src/GeoLite2PP.cpp:149-245 | an array prints its items, commas only between them |
| `GeoJson.RecordPrints` | src/GeoLite2PP.cpp:267-292 | the call for a whole record, as a map of one pair whose list ends early, prints the record alone; a bare string is taken for a key |
| `GeoJson.Int32PrintedIffNonNegative` | src/GeoLite2PP.cpp:215 | an INT32 is printed as the number it is exactly when it is not negative |
| `GeoJson.CreateJson` | src/GeoLite2PP.cpp:149-245 | the loop over nodes, with `next` rewritten through a reference, prints what the walk over the entry list prints, throws exactly where it does, and leaves the pointer at the first node after the subtree and the later nodes linked as they were |
| `GeoJson.ToJson` | src/GeoLite2PP.cpp:267-292 | on the preorder list of any well-formed record the result is the text of which `JsonReader.ReadsBackIff` says when it reads back as the record |
| `JsonReader.ReadsBackIff` | src/GeoLite2PP.cpp:149-292 | a reader of JSON text, written on the literals, digits, escapes and brackets of RFC 8259, gives the record back from what `to_json` prints, keys, order and values, if and only if it is no bare string, no string of it has a quote, a backslash or a control character, no INT32 is negative and no number is an infinity |
| `JsonReader.ValueShown` | src/GeoLite2PP.cpp:149-245 | the same for a value at any depth, followed by anything that ends it |
| `JsonReader.StrangeRead` | src/GeoLite2PP.cpp:187-195 | a string that would need an escape never reads back as itself |
| `JsonReader.BoolRead` | src/GeoLite2PP.cpp:218 | a boolean reads back as `true` exactly when it is |
| `JsonReader.DecimalAmount` | src/GeoLite2PP.cpp:213-216 | the digits of a number are worth the number |
| `JsonReader.ValueIsAmount` | src/ParserServer.cpp:87 | the number `stoi` takes a digit string for is the one it denotes, leading zeros or not |
| `JsonReader.Layout` | src/GeoLite2PP.cpp:180-209 | the layout, on the record of `{"a": [true, 5]}`, as literal text: four spaces a level, brackets on lines of their own |
| `GeoJson.ThrowsIffDamaged` | src/GeoLite2PP.cpp:174-232 | the walk throws exactly if some leaf of the record has no data or a type the switch refuses, wherever it stands and whatever stands in the place of keys; else it stops right after the record |
| `GeoJson.EndsEarly` | src/GeoLite2PP.cpp:157-171 | a list that ends early throws at the start of a container that is not empty, and inside one the loop just stops |
| `HashBuffer.PaddingExact` | src/sha256.cpp:113-130 | the padding is the one of FIPS 180-4 section 5.1.1 if and only if the message is shorter than 2^29 bytes |
| `HashBuffer.Hash.Update` | src/sha256.cpp:90-111 | after any update the blocks compressed and the buffer hold exactly the message so far; a chunk within 64 bytes of 2^32 wraps the counter and loses buffered bytes instead |
| `HashBuffer.Hash.Final` | src/sha256.cpp:113-130 | the digest is the compression of exactly the blocks of the padded message, all copies staying inside the 128-byte block |
| `HashBuffer.HashOf` | src/sha256.cpp:132-146 | the digest is that of what the updates take in, however large the chunks, and so depends on the concatenation of the chunks alone as long as none wraps the counter |
| `HashBuffer.HeardIff` | src/sha256.cpp:90-111 | what the updates take in is the concatenation of the chunks if and only if no chunk wraps the counter |
| `HashBuffer.ShortNeverWraps` | src/sha256.cpp:90-111 | no chunk of up to 2^32 - 64 bytes does |
| `HashBuffer.DigestText` | src/sha256.cpp:127-146 | the 64 digits printed, read eight by eight as hexadecimal numbers, are the eight words of the digest |
| `HashBuffer.StandardBlocks` | src/sha256.cpp:113-130 | below 2^29 bytes those blocks are the ones of the standard |
| `HashBuffer.NumberOfBigEndian` | src/sha256.cpp:124-128 | the length field read back as a number is the length written |
| `HashBuffer.FipsShape` | src/sha256.cpp:113-130 | the padding compared with is that of section 5.1.1 of FIPS 180-4: a whole number of blocks, as few as will do, a one bit, zeros, and the length in bits as the last 64 |
| `HashBuffer.HexDigitIs` | src/sha256.cpp:142-146 | the digits printed are those of `0123456789abcdef`, each for its place |
| `Base64.Encode` | src/base64.cpp:60-100 | whatever the work arrays held, the loop produces the encoding of RFC 4648 section 4 of the bytes, by 24-bit groups |
| `Base64.Decode` | src/base64.cpp:102-137 | whatever the work arrays held, the loop decodes the groups of the alphabet characters up to the first other character |
| `Base64.RoundTrip` | src/base64.cpp:60-137 | decoding an encoding gives the bytes back, for every byte string |
| `Base64.EncodedShape` | src/base64.cpp:60-100 | the length is four times the number of groups, rounded up, and `=` stands only in the last two places |
| `Base64.AlphabetAt` | src/base64.cpp:50-53 | the 64 characters are those of table 1 of RFC 4648, in its order |
| `Base64.AlphabetExact` | src/base64.cpp:56-58 | `is_base64` holds of those characters and of no other |
| `Base64.SameNumber` | src/base64.cpp:60-100 | an encoding, padding counted as zeros, is the same number in base 64 as the bytes, filled up to a multiple of three, are in base 256 |
| `ReplicatedLog.Database.Parse` | src/ParserServer.cpp:48-71 | the VERSION and DB branches on the tables: what is executed, logged and sent, and where a short line throws |
| `ReplicatedLog.Database.AlmacenaDB` | src/db.cpp:49-58 | the line is appended under the next row number unless its id is already there |
| `ReplicatedLog.Database.Sync` | src/db.cpp:60-73 | the rows after the one with that id, all of them for "0", none for an unknown id |
| `ReplicatedLog.DbLine` | src/ParserServer.cpp:68-71 | a new DB line is executed and logged; one already logged is executed again, and the log stays the history of the state exactly when that changes nothing |
| `ReplicatedLog.OtherLines` | src/ParserServer.cpp:48-71 | VERSION without an id is not answered, and a DB line of less than 36 characters throws |
| `ReplicatedLog.MissingAfter` | src/db.cpp:60-73 | asked with the last id of its own first k rows a server sends exactly the later ones, and the ids agree exactly when there are none |
| `ReplicatedLog.MissingUnknown` | src/db.cpp:60-73 | asked with an id it does not have yet it sends nothing |
| `ReplicatedLog.SessionConverges` | src/ParserServer.cpp:48-71 | for every interleaving of the two announcements and of the lines each way, a finished session ends with equal logs exactly when one log was a prefix of the other and the longer side would answer; both logs are then the longer one and the two database states are equal |
| `ReplicatedLog.SessionCanFinish` | src/ParserServer.cpp:48-71 | whatever the two logs, no session gets stuck: from wherever it is it can be finished |
| `ReplicatedLog.HearsLess` | src/ParserServer.cpp:48-71 | nor does it go on by itself: every line heard leaves fewer announcements on the way, or as many and fewer lines |
| `ReplicatedLog.WriteHeard` | modules/ns.cpp:117-124 | the framing of a line gives a hearing peer the statement and the id the writer used, and both end in the same state |
| `ReplicatedLog.LateWriteAgreesIff` | src/db.cpp:60-73 | a write made between connecting and answering leaves the two logs equal if and only if the peer had lacked nothing, and even then its statement was executed twice |
| `ReplicatedLog.LateWriteDiverges` | src/db.cpp:60-73 | a write between connecting and answering reaches the peer ahead of the rows it lacks, and the logs are then prefixes of each other never again |
| `Duration.UnixTime` | src/Utils.cpp:106-131 | the loop reads a duration as the accumulating grammar says, digits pending across blanks, throwing where stoi throws |
| `Duration.FieldsRead` | src/Utils.cpp:106-131 | days, hours, minutes and seconds, each printed only when not zero, are read back as their sum |
| `Duration.DurationRoundTrip` | src/Utils.cpp:133-160 | a duration is printed without overflow exactly below 2147558400 seconds, and reading it back then gives max(t, 0) |
| `Duration.FirstOverflow` | src/Utils.cpp:138-139 | the first duration whose `dias*86400` overflows int |
| `Duration.PrintedIs` | src/Utils.cpp:133-160 | days, hours, minutes and seconds with their letters, those that are zero left out, a blank after all but the seconds |
| `Duration.UnitIs` | src/Utils.cpp:106-131 | a number before `d`, `h`, `m`, `s` is read as so many times 86400, 3600, 60 and 1 seconds |
| `WriteQueue.PlainUser.Deliver` | src/PlainUser.cpp:144-165 | a delivery queues the line and starts a write exactly when the queue was empty; on a closed socket nothing changes |
| `WriteQueue.PlainUser.OnWritten` | src/PlainUser.cpp:224-238 | a completion pops and starts the next write, an error stops |
| `WriteQueue.WebUser.OnSend` | src/WebUser.cpp:231-243 | the executor's call queues the text and starts a write exactly when it is alone |
| `WriteQueue.WebUser.OnWrite` | src/WebUser.cpp:245-258 | a completion, or an error, drops the head and starts the next write |
| `WriteQueue.PlainKeepsOrder` | src/PlainUser.cpp:144-238 | over every interleaving: at most one write outstanding, of the head of the queue, exactly when the queue is non-empty and nothing failed; what was written followed by the queue is what was delivered, in order; no empty queue is popped; after the first error nothing is written |
| `WriteQueue.WebKeepsOrder` | src/WebUser.cpp:161-258 | over every interleaving: at most one write outstanding, exactly when the queue is non-empty; the k-th completion is of the k-th message delivered, errors included |
| `WriteQueue.PlainAllWritten` | src/PlainUser.cpp:144-238 | everything delivered was written exactly when no write failed and none is under way: nothing is forgotten in the queue |
| `WriteQueue.WebAllWritten` | src/WebUser.cpp:161-258 | the same for a websocket client, with nothing waiting for the executor |
| `WriteQueue.WebWithoutErrors` | src/WebUser.cpp:231-258 | until the first error what was written followed by what waits is what was delivered, in order |
| `WriteQueue.LineIs` | src/PlainUser.cpp:144-150 | a message goes to a TCP client with the codes 13 and 10 after it |
| `WriteQueue.StripIs` | src/WebUser.cpp:136-152 | and to a websocket client with every code from 128 on as a question mark |
| `Catalogue.LauGettext.FromTable` | src/MoPsr.cpp:172-245 | the scans of the memo and of the table answer as the first match does, and record hits and misses |
| `Catalogue.LauGettext.SetLocale` | src/i18n.cpp:105-124 | the locale is split at the first underscore and everything remembered is dropped |
| `Catalogue.MemoTransparent` | src/MoPsr.cpp:172-245 | in any history of lookups and locale changes every answer is the first match in the files of the current locale, as if nothing were remembered |
| `Catalogue.Formatter.MakeString` | src/Utils.cpp:162-193 | the template comes from the cache when it holds that text in that language, otherwise from a new reader; an entry is never replaced |
| `Catalogue.CacheTransparent` | src/Utils.cpp:162-193 | although the cache is keyed by the text alone, any history of requests in any mix of languages gets the templates of an uncached lookup |
| `Catalogue.TemplateIs` | src/i18n.cpp:47-89 | which file answers: that of the locale if it exists, even if it cannot be parsed, and that of the language only if it does not; the translation is that of the first entry with the text, and the text stands for itself without a file or an entry |
| `Catalogue.PlainCode` | src/Utils.cpp:174-191 | with no language asked for the configured one is used, and `en` without one; a code without a country has one file |
| `Catalogue.NewReader` | src/i18n.cpp:42-69 | a reader that was never told a locale looks for `en_US` and then for `en` |
| `Catalogue.CodeSplit` | src/i18n.cpp:105-124 | a code is split at its first underscore, and ten characters of the country are kept |
| `Catalogue.FirstKept` | src/Utils.cpp:193 | the cache never replaces an entry, and gets one for every text that has none |

## Left out

- Commands.NickCommand: what the services answer is a parameter, and does not change within a command; memos shown and lines sent are not modelled.
- Commands.JoinOne: `DoRegister` is not part of it; what the databases and the configuration answer is a parameter; the flood counter and the lines sent are not modelled.
- Wire.Parse: channel mode r, topics, memos and the set of servers are not stored; whether MEMODEL ends turns on the memos, which are a parameter.
- HashBuffer.Hash.Final: the compression function is a parameter; the rotations in include/sha256.h are not those of FIPS 180-4, so no equality with SHA-256 is claimed.
- HashBuffer.HashOf: likewise with the compression as a parameter.
- Runs.Reachable: new users have addresses that stand in no rank set; what happens otherwise is stated by `Network.Network.AddUser` alone.
- Network.Channel.IsBan: the pointer sets of bans are sequences, in some iteration order; the verdict is proved not to depend on it.
- Catalogue.Formatter.MakeString: ends where the template is chosen; the formatting by `vsnprintf` into 512 bytes is not modelled.
- Catalogue.LauGettext.FromTable: a message is its text; its length field, and the table item after the last one that the source reads on a miss, are not modelled.
- ReplicatedLog.Database.Parse: SQL statements act through an arbitrary function; quoting, time stamps and the query language are not modelled, and whether the hub is present is fixed during a session.
- WriteQueue.WebUser.OnSend: asynchronous writes hold a copy of the text; that `push_back` may move a short string under an outstanding write is not modelled.
- JsonReader.ReadsBackIff: the reader does not know the escape `\u`, and takes a number that is not whole as its text.
- Effects.NickRank: a NICK that makes or unmakes an IRC operator runs CheckModes under the old flag and, if the virtual host changes, again under the new one; the rank after that is not written out.
- Effects.JoinTable: where a mask has a `?` the verdicts may be undefined; `NetState.JoinReadsPastKeys` says no more there either.
- Duration.UnixTime: the 64-bit sum is unbounded here.
- Broadcasts and notices to clients, flood counters, ban expiry timers, channel topics and channel mode r, memos, and the set of IRC operators.
- What a read of a deleted channel returns.
- Registration of a first nick beyond entering the table: passwords, virtual hosts, services.
- Sockets, TLS, threads, mutexes and timers: commands and completions are atomic steps.
- The lookup in the GeoIP database; its list of entries is the input, doubles arrive printed.
- Catalogues in the other byte order, whose tables are swapped in place on every lookup.
- `prior`, which writes past the queue of a TCP client.
- Strings of 2^31 bytes and more, and characters as anything but bytes.
