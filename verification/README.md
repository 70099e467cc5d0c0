# Verification of the plugin protocol's algorithms

A Dafny model of the parts of the plugin protocol crate that compute something, with proofs of what they promise.
`dafny verify dfyconfig.toml` checks everything.

| files | what they model |
|---|---|
| `LateBoundMachine`, `LateBoundInvariants`, `LateBoundTheorems` | the late-bound host as a step system: any number of threads run `set`, subscribe, guard drops and reads, one lock operation or effect at a time; its invariants; what follows for every reachable state |
| `LateBoundHost` | the same host as a class whose methods loop over the slot vectors; each method is proved to be a complete run of the step system |
| `CredentialTokens`, `CredentialTokenLaws` | the `${cred://…}` scanner: brace matcher, extractor, substituter, and their laws |
| `CredentialRef`, `IdentityKey` | credential URIs; the byte stream behind the identity cache key |
| `LayoutFingerprint` | the worklist over a cyclic graph of type layouts and the stream it hashes |
| `RedactUrl`, `RedactUrlLaws`, `RedactTwice`, `RedactText` | redaction of URLs, texts and JSON values; when redacting again changes a URL |
| `MergeSchema`, `Catalog` | the two merge algebras |
| `Capability`, `CapabilitySchema` | capabilities: parser, generated JSON Schema, boundary form |
| `Security`, `ResultEnvelope` | the address classifier and the result envelope |
| `Wrappers`, `Text`, `Json`, `Sorting`, `Bytes` | shared ground: options, splitting, JSON values, sorting by a total order, byte strings |

In the lock-level machine a token stands for one subscription at an inner host and `live` is the registry of all inner
hosts together; `serial` restricts a run to non-overlapping `set` calls. `replayed`, `mark` and `subscribes` only record
history, and so does `installed` in the class. Strings are sequences of characters where the code looks for ASCII
delimiters, and sequences of bytes where it feeds a digest.

## Where the code differs from what is said about it

- `set` releases `inner` before it takes `subscriptions` (`src/backend.rs:650-654`). The documentation of the host
  promises that live guards follow a host swap; overlapping `set` calls can break that (`OverlappingSetsDisagree`), and
  `AgreementExactly` says when they do not.
- The substituter copies plain text byte by byte as characters (`src/credential.rs:369`), so text outside blocks that is
  not ASCII is not left intact, as the documentation says; `UnresolvedIsUnchangedIff` is exact.
- Showing a URL is not idempotent on all inputs, in two ways. `x?a=p://q&r://u@c` becomes `x?a=[redacted]&r://u@c`, and
  that becomes `x?a=[redacted]&r://c`: a masked value hid the first `://` (`LateFails`). `x?p://h=a/b&c@d` becomes
  `x?p://h=[redacted]&c@d`, and that becomes `x?p://d`: a masked value hid the `/` that ended the authority
  (`EndedFails`). `DisplayTwiceIff` is exact for every string. The first userinfo has to be taken off before the values
  are cut out, since it may hold `&` and `=`: `x?p://a=1&b@c` is shown as `x?p://c` and stays so.
- Merging schemas is not associative in general; `AssociatesIff` is exact.

## Model

| member | source | states |
|---|---|---|
| `LateBoundInvariants.LockStep` | src/backend.rs:649-853 | Every step of every thread keeps the lock discipline: at most one holder of `subscriptions`, a writer of `inner` excludes readers, and who holds what agrees with where each thread stands |
| `LateBoundInvariants.RegStep` | src/backend.rs:649-853 | Every step, half-done replays included, keeps the registration tables consistent: no token in two slots, each slot's token registered for that slot's callback, each live registration owned by one slot or by the one subscribe about to push it |
| `LateBoundInvariants.HostStep` | src/backend.rs:649-853 | Every step keeps: outside a replay each slot holds a registration, at the host of the last finished replay if older than it and otherwise at the current inner host |
| `LateBoundInvariants.SerialStep` | src/backend.rs:649-667 | When `set` is only called while none runs, every step keeps at most one `set` in flight and, once it is done, the last replay's host equal to the inner host |
| `LateBoundInvariants.IdStep` | src/backend.rs:689-853 | Up to 2^64 subscriptions every step keeps ids unique: each guard has its slot, each slot its guard or a subscribe or drop still under way |
| `LateBoundInvariants.FinishedReplay` | src/backend.rs:659-667 | At the end of a replay every slot and every live registration is at the replay's host |
| `LateBoundTheorems.ReachableInv` | src/backend.rs:649-853 | All invariants hold in every reachable state, whatever the interleaving |
| `LateBoundTheorems.RegistrationsConserved` | src/backend.rs:659-666 | In every reachable state, overlapping `set` calls included, the registrations of a callback at all hosts together are exactly the buffered slots that hold one, plus that of a subscribe about to push: nothing registered twice, nothing leaked |
| `LateBoundTheorems.NeverAtTwoHosts` | src/backend.rs:659-666 | Under any interleaving and in the middle of replay loops, two hosts together hold a callback at most as often as it is buffered or about to be: one subscribed once is never registered at two hosts |
| `LateBoundTheorems.RegistrationsNotShared` | src/backend.rs:605-619 | Two slots never share a registration, so a slot's registration at one host is its callback's only one |
| `LateBoundTheorems.ReplayMovesEverything` | src/backend.rs:655-666 | A completed replay leaves every slot it saw, and nothing else, registered at its own host, under any interleaving |
| `LateBoundTheorems.AgreementExactly` | src/backend.rs:649-667 | After arbitrary overlapping `set` calls: every slot is at the bound host or at the last replay's; all are at the bound host if and only if that replay was for it or no slot it moved is left |
| `LateBoundTheorems.OverlappingSetsDisagree` | src/backend.rs:649-654 | Counterexample: two overlapping `set` calls leave `inner` on one host and the slot of a live guard on the other |
| `LateBoundTheorems.GuardsServedByBoundHost` | src/backend.rs:649-853 | With non-overlapping `set` calls, fewer than 2^64 subscribes, no `set` in flight and a host bound, each live guard owns exactly one slot, registered once and at the bound host; an event at any other host runs nothing |
| `LateBoundTheorems.SerialHosts` | src/backend.rs:649-667 | Under the same condition every slot and every registration is at the bound host |
| `LateBoundTheorems.EventReachesEachGuardOnce` | src/backend.rs:582-592 | With non-overlapping `set` calls, fewer than 2^64 subscribes, no `set` in flight and a host bound, whatever else is running: an event at the bound host runs a callback once per slot buffering it, and once for a subscribe about to push it; each live guard has exactly one slot, and every slot answers to a guard or to a subscribe or drop under way |
| `LateBoundTheorems.QuietEvent` | src/backend.rs:582-592 | With no call running, slots and live guards correspond one to one and nothing else is heard |
| `LateBoundTheorems.SomeThreadCanRun` | src/backend.rs:650-654 | Progress: a reachable state with a call under way always has a thread that can take a step, even if waiting writers keep readers out; the two locks never deadlock |
| `LateBoundTheorems.EveryStepIsProgress` | src/backend.rs:647-853 | Each step brings its own call strictly nearer to its end and pushes no other call back |
| `LateBoundTheorems.AllCallsReturn` | src/backend.rs:647-853 | From a reachable state no run without new calls is longer than the steps left in all threads together, and one that cannot go on has no call left |
| `LateBoundHost.LateBoundBackendHost.constructor` | src/backend.rs:640-642 | A new host is unbound and has no subscription |
| `LateBoundHost.LateBoundBackendHost.Set` | src/backend.rs:649-667 | Refines a complete undisturbed `set` run of the lock-level machine: every buffered slot and every live registration ends at the new host, ids and guards unchanged |
| `LateBoundHost.LateBoundBackendHost.ReplayRevocation` | src/backend.rs:659-662 | The first replay loop refines the machine slot by slot: old registration dropped, then the new one made |
| `LateBoundHost.LateBoundBackendHost.ReplayRotation` | src/backend.rs:663-666 | The second replay loop, likewise |
| `LateBoundHost.LateBoundBackendHost.SubscribeCredentialRevoked` | src/backend.rs:797-825 | Refines a complete subscribe: a fresh wrapping id, one slot pushed, registered at once exactly when a host is bound |
| `LateBoundHost.LateBoundBackendHost.SubscribeSecretRotation` | src/backend.rs:827-852 | The same for rotation callbacks |
| `LateBoundHost.LateBoundBackendHost.DropRevocationGuard` | src/backend.rs:689-695 | Refines a complete guard drop: exactly the slots with the guard's id go, and their registrations with them |
| `LateBoundHost.LateBoundBackendHost.DropRotationGuard` | src/backend.rs:708-714 | The same for rotation guards |
| `LateBoundHost.LateBoundBackendHost.IsBound` | src/backend.rs:670-675 | True exactly when some `set` has installed a host, however often it was since replaced |
| `LateBoundHost.Retain` | src/backend.rs:689-695 | `retain` keeps the slots with other ids in order and releases exactly the registrations of those it throws away |
| `LateBoundHost.InnerHosts.Subscribe` | src/backend.rs:2181-2206 | An inner host's subscribe issues a new registration and touches no other |
| `LateBoundHost.InnerHosts.Release` | src/backend.rs:2151-2171 | Dropping an inner guard removes exactly its registration |
| `CredentialTokens.FindMatchingBrace` | src/credential.rs:273-306 | The scanning loop with its depth, string and escape flags computes the position-wise matcher, for every start |
| `CredentialTokens.MatchIsFirstZero` | src/credential.rs:273-306 | The matcher stops at a position if and only if it is the first one at which the nesting of braces outside string literals, counted independently, returns to zero |
| `CredentialTokens.DepthFits` | src/credential.rs:273-306 | In a text shorter than 2^31 - 1 the nesting stays within 32 bits at every position, so the counter of the source agrees with the unbounded one of the model |
| `CredentialTokens.Latin1IsUtf8` | src/credential.rs:369 | What is written for a character outside blocks are its UTF-8 bytes, each as a character |
| `CredentialTokens.CredTokens` | src/credential.rs:316-335 | The extractor loop returns the credential tokens of the text's segmentation, in order |
| `CredentialTokens.SubstituteCredTokens` | src/credential.rs:342-373 | The substituter loop returns one left-to-right concatenation over the same segmentation, despite the different loop bounds; inserted values are never rescanned |
| `CredentialTokenLaws.LiteralSkipped` | src/credential.rs:281-288 | A string literal is passed over whatever it holds: braces, quotes and any character behind a backslash, and backslashes behind backslashes |
| `CredentialTokenLaws.OpenLiteral` | src/credential.rs:281-288 | A literal that is not closed leaves the brace unmatched |
| `CredentialTokenLaws.BlockReplaced` | src/credential.rs:342-373 | A matched block is replaced by the value of its trimmed URI, once, if that is a credential URI in the map, and otherwise stays as it is; text before it stays, text behind it is substituted on its own |
| `CredentialTokenLaws.BlockExtracted` | src/credential.rs:316-335 | A matched block adds its trimmed inner text to the tokens exactly when that starts with `cred://` |
| `CredentialTokenLaws.LoneDollar` | src/credential.rs:342-373 | A `$` without a `{`, or whose brace nothing closes, is an ordinary character |
| `CredentialTokenLaws.NoDollar` | src/credential.rs:342-373 | ASCII text without `$` stays as it is and holds no token |
| `CredentialTokenLaws.SegmentsPartition` | src/credential.rs:342-373 | The segments of a text put together are the text |
| `CredentialTokenLaws.OnlyTokensAreLookedUp` | src/credential.rs:359-361 | Two maps that agree on the extracted tokens give the same substitution |
| `CredentialTokenLaws.UnresolvedIsUnchangedIff` | src/credential.rs:342-373 | With none of its tokens in the map, a text is unchanged if and only if every character outside its blocks is ASCII |
| `CredentialTokenLaws.MatchKept` | src/credential.rs:342-373 | Substituting inert values opens no brace that was closed and closes none that was open, at every depth |
| `CredentialTokenLaws.NoTokenLeft` | src/credential.rs:273-373 | If every token of a text without `"` maps to a non-empty value free of `$`, `{`, `}` and `"`, the result has no credential token left, whatever unmatched `${` and nested blocks stand around |
| `CredentialTokenLaws.EmptyValueMakesToken` | src/credential.rs:359-361 | Counterexample family: an empty value can join `$` and `{` into a token nobody wrote |
| `Text.TrimFinds` | src/credential.rs:325 | Trimming takes off exactly the whitespace around a text |
| `CredentialRef.ParseSpelled` | src/credential.rs:221-258 | A URI parses to id, target and part exactly when it is spelled `cred://`, id, `/`, target and perhaps `#` and part, each non-empty and without the delimiters behind it; id and target, in that order, are its cache key |
| `CredentialRef.ParseToUri` | src/credential.rs:221-249 | Parsing the rendering of a well-formed reference gives it back |
| `CredentialRef.ToUriParse` | src/credential.rs:221-249 | Every accepted URI parses to a well-formed reference and renders back to itself |
| `CredentialRef.RoundTripIff` | src/credential.rs:221-249 | A reference survives rendering and parsing exactly when plugin id and target are non-empty, `/` and `#` stay out of the id, `#` out of the target, and a part is non-empty |
| `CredentialRef.CacheKeyIgnoresPart` | src/credential.rs:251-258 | Two accepted URIs share a cache key exactly when they agree up to the first `#` |
| `ByteStrings.LexLeIff` | src/credential.rs:451-456 | The order of the sorted lists is lexicographic: the first differing byte decides, and a prefix comes first, whatever the lengths |
| `IdentityKey.FeedSorted` | src/credential.rs:457-466 | A list is fed as its length and its labelled, length-prefixed items |
| `IdentityKey.FeedPresent` | src/credential.rs:499-505 | The attribute pairs are fed as their number and labelled keys and values |
| `IdentityKey.FeedWritten` | src/credential.rs:428-433 | One field byte by byte: label length in four bytes and value length in eight, both least significant first, each before its text |
| `IdentityKey.IdentityStream` | src/credential.rs:425-507 | The whole sequence of updates is the encoding of the canonical form |
| `IdentityKey.DecodeEncode` | src/credential.rs:428-433 | The length-prefixed encoding is readable: a decoder gives back exactly what was encoded |
| `IdentityKey.Canonicalized` | src/credential.rs:499-500 | Sorting and deduplicating the pairs keeps exactly their set, in strict order |
| `IdentityKey.CanonWritten` | src/credential.rs:435-507 | What is laid out: scalars as they are with absent ones empty, each list in ascending byte order, the pairs in strictly ascending order of keys |
| `IdentityKey.FoldedWritten` | src/credential.rs:475-500 | Which pairs take part, by the attributes alone: with the vault source and a binding, the listed keys but the token, and the binding; otherwise the listed keys and the token |
| `IdentityKey.AttrsEqualIff` | src/credential.rs:475-500 | The folded attributes agree exactly when the sets of folded pairs agree, in whatever order and multiplicity keys were listed |
| `IdentityKey.StreamsEqualIff` | src/credential.rs:425-507 | Two callers share a stream if and only if kind, trust level, the optional fields with `None` read as empty, the multisets of roles, groups and scopes, and the sets of folded attribute pairs are equal |
| `IdentityKey.RotationKeepsStream` | src/credential.rs:475-498 | With the source `idp_vault` and a binding present, the stream stays through every rotation or removal of the subject token, whatever keys are listed |
| `IdentityKey.BindingCounts` | src/credential.rs:475-498 | Then the binding counts: whoever shares the stream carries the same binding |
| `IdentityKey.UnlistedIgnored` | src/credential.rs:396-424 | An attribute that is neither listed nor one of the three subject token attributes does not change the stream |
| `IdentityKey.BindingWithoutSourceIgnored` | src/credential.rs:412-416 | A binding without the vault source does not change the stream, unless it is listed |
| `IdentityKey.TokensPartitionStreams` | src/credential.rs:475-498 | A subject token, when the source is not `idp_vault` or there is no binding, is shared only with callers of that kind that carry the same token |
| `LayoutFingerprint.HashedStream` | src/abi_fingerprint.rs:36-51 | The worklist ends on every finite, possibly cyclic graph with the lines of a complete traversal; with equal ids meaning equal layouts among those reachable, what is hashed is the ascending list of the descriptions reachable from the root |
| `LayoutFingerprint.HashLines` | src/abi_fingerprint.rs:47-51 | The hashing loop writes one line per description |
| `LayoutFingerprint.LinesWritten` | src/abi_fingerprint.rs:47-51 | Each description stands on a line of its own, before one newline, in order |
| `LayoutFingerprint.OrderedInsertKeeps` | src/abi_fingerprint.rs:44 | Inserting into the ordered set keeps it strictly ascending and adds just that element |
| `LayoutFingerprint.VisitKeeps` | src/abi_fingerprint.rs:40-46 | One visit, of any layout of the worklist, keeps the traversal invariant |
| `LayoutFingerprint.FinishedDescribes` | src/abi_fingerprint.rs:40-46 | When the worklist is empty the set holds exactly the descriptions of the reachable layouts |
| `LayoutFingerprint.AnyTraversal` | src/abi_fingerprint.rs:30-31 | Stack, queue or any other order of visits hashes the same stream |
| `LayoutFingerprint.StreamUnique` | src/abi_fingerprint.rs:47-51 | The stream is determined by graph and root |
| `LayoutFingerprint.SameLayoutsSameStream` | src/abi_fingerprint.rs:24-35 | Two graphs whose layouts match description by description, however numbered, ordered or repeated, hash the same stream |
| `LayoutFingerprint.StreamsEqualIff` | src/abi_fingerprint.rs:47-51 | With one-line descriptions two streams are equal if and only if the sets of reachable descriptions are |
| `LayoutFingerprint.IncoherentOrderShows` | src/abi_fingerprint.rs:41-45 | Counterexample: with two different layouts under one id the order of the worklist shows in the stream |
| `RedactUrl.PasswordIdempotent` | src/redact.rs:54-71 | After one pass no userinfo is left and a second pass changes nothing, on every string |
| `RedactUrl.PasswordChangesIff` | src/redact.rs:54-71 | A string is changed exactly when its first authority holds an `@` |
| `RedactUrl.MaskTwice` | src/redact.rs:30-49 | Masking query values again changes nothing and never adds an `@` |
| `RedactUrlLaws.PasswordWritten` | src/redact.rs:54-71 | On every string with an `@` behind its first `://` and before the next `/`, `?` or `#`: what stands between the `://` and the last such `@` goes, with the `@`, and nothing else |
| `RedactUrlLaws.UserinfoPosition` | src/redact.rs:54-71 | The password redactor finds a userinfo exactly when the first `://` is followed by an `@` before the next `/`, `?` or `#` |
| `RedactUrlLaws.MaskOfParts` | src/redact.rs:30-49 | Masking hides exactly the query values, whatever stands before the query |
| `RedactUrlLaws.PartsOf` | src/redact.rs:30-49 | Every string is a base, query parameters and a fragment, so that law speaks of all strings |
| `RedactUrlLaws.DisplayOfRelative` | src/redact.rs:28-49 | A text without `://`, such as a relative URL, is shown with its query values withheld and nothing else changed |
| `RedactUrlLaws.PasswordOfUrl` | src/redact.rs:51-71 | Of a URL in parts the password redactor removes the userinfo and nothing else |
| `RedactUrlLaws.MaskOfUrl` | src/redact.rs:35-48 | Of a URL without userinfo the masking replaces exactly the query values |
| `RedactUrlLaws.DisplayOfUrl` | src/redact.rs:24-49 | The display form of a URL is the same URL without userinfo and with every query value withheld |
| `RedactUrlLaws.DisplayTellsNothing` | src/redact.rs:24-49 | URLs that differ in userinfo and query values only are shown alike |
| `RedactTwice.MaskedIffCut` | src/redact.rs:35-48 | Masked values decide nothing: whether a masked URL has a userinfo shows in its base, query names and fragment alone |
| `RedactTwice.DisplayTwiceIff` | src/redact.rs:28-49 | For every string: showing it twice equals showing it once if and only if, in base, query names and fragment with the first userinfo taken off, the first `://` is followed by no `@` before the next `/`, `?` or `#` |
| `RedactTwice.DisplayTwiceIffPlain` | src/redact.rs:28-49 | For a URL without userinfo the same condition on the URL as it stands |
| `RedactTwice.SettledIsFinal` | src/redact.rs:28-49 | The display form is final for every URL without `://`, without `?` before the first `#`, or with its first `://` before any `?` and `#` |
| `RedactTwice.LateFails` | src/redact.rs:28-49 | First failing family: a masked value hides the first `://`, and a second pass strips the userinfo behind the next one |
| `RedactTwice.EndedFails` | src/redact.rs:28-49 | Second failing family: a masked value hides the `/` or `?` that ended the authority, which then reaches to an `@` in a later parameter |
| `RedactText.TokenParts` | src/redact.rs:78-89 | A token is changed exactly when what stands before its trailing punctuation has a userinfo; only that part is redacted and the punctuation stays |
| `RedactText.PunctuationKept` | src/redact.rs:126-136 | The ten punctuation characters behind a URL are kept and not taken for it |
| `RedactText.WordsAround` | src/redact.rs:77 | Cutting a text at any whitespace cuts its words there; none is lost |
| `RedactText.WordAlone` | src/redact.rs:77 | A whitespace-free text is one word, the empty text none |
| `RedactText.TextWords` | src/redact.rs:76-93 | The words of the result are the words of the text, each redacted on its own, one for one |
| `RedactText.TextIdempotent` | src/redact.rs:76-93 | No word of the result has a userinfo left, and redacting again changes nothing |
| `RedactText.CoreFinds` | src/redact.rs:126-136 | Splitting off trailing punctuation undoes appending it |
| `RedactText.RedactValue` | src/redact.rs:101-121 | The walk over arrays and objects rewrites every text leaf |
| `RedactText.LeavesRedacted` | src/redact.rs:101-121 | Path by path: every text is redacted where it stands, every other leaf stands unchanged, arrays keep their length and objects their keys |
| `RedactText.NoUserinfoInValue` | src/redact.rs:96-121 | No text in the result holds a word with a userinfo |
| `RedactText.ValueIdempotent` | src/redact.rs:101-121 | Redacting a JSON value again changes nothing |
| `MergeSchema.MergeInPlace` | src/schema.rs:21-36 | The loop that takes each entry out of the base and puts it back merged computes the recursive merge |
| `MergeSchema.MergeTwice` | src/schema.rs:21-36 | Merging the same overlay twice equals merging it once |
| `MergeSchema.MergeField` | src/schema.rs:9-15 | The whole result path by path: overlay merged over base where the overlay has a value, base where it says nothing, nothing below a non-object of the overlay |
| `MergeSchema.OverlayWins` | src/schema.rs:12-14 | An overlay value that is not an object stands unchanged at its path |
| `MergeSchema.ObjectsJoin` | src/schema.rs:16-30 | Where the overlay has an object there is one, with the keys of both; an empty one still replaces a non-object |
| `MergeSchema.AbsorbsIff` | src/schema.rs:21-36 | Merging leaves nothing of the base exactly when the overlay covers it path by path |
| `MergeSchema.AssociatesIff` | src/schema.rs:21-36 | Merging associates if and only if, wherever first and third operand are objects and the middle one is not, the third absorbs the first |
| `MergeSchema.AssociatesByPaths` | src/schema.rs:21-36 | So it associates whenever no path has objects in the first and third operand and a non-object in the middle one |
| `MergeSchema.NullBetweenObjects` | src/schema.rs:27 | With an explicit null between two objects merging associates exactly when the third absorbs the first; on one side the first is wiped out |
| `MergeSchema.NullLosesField` | src/schema.rs:27 | Counterexample family: any field of the first operand is lost when null and the empty object follow |
| `Catalog.CatalogMetadata.MergeFrom` | src/catalog.rs:152-181 | Every field of the record afterwards is the merge of the old value with the incoming one |
| `Catalog.CatalogMetadata.MergeTags` | src/catalog.rs:171-175 | The tag loop appends each incoming tag that is not there yet |
| `Catalog.CatalogMetadata.MergeAttributes` | src/catalog.rs:176-180 | The attribute loop fills in the keys that are not there yet and overwrites none |
| `Catalog.MergeAssociative` | src/catalog.rs:143-151 | Merging is associative |
| `Catalog.BracketingIrrelevant` | src/catalog.rs:143-151 | Every bracketing of a provider chain of any length gives the same metadata |
| `Catalog.FirstProviderDecides` | src/catalog.rs:146-151 | Each scalar and each attribute key of the merged chain comes from the first provider that sets it |
| `Catalog.AppendPicks` | src/catalog.rs:171-175 | Appended tags are those at the places where a tag turns up for the first time, in order |
| `Catalog.FirstTagsFirst` | src/catalog.rs:149 | The merged tags are the first provider's, then the later unseen ones in the order of first appearance |
| `Capabilities.ArgsIffField` | src/capability.rs:206-230 | The two tables over kinds agree |
| `Capabilities.KnownNamesDistinct` | src/capability.rs:181-201 | No known name is listed twice |
| `Capabilities.KnownKind` | src/capability.rs:155-201 | The known names are the kinds of all capabilities but the unknown one |
| `Capabilities.FromTaggedIff` | src/capability.rs:318-339 | The object form of a known kind is read exactly when its argument list is there, and gives that kind |
| `CapabilitySchema.SchemaFor` | src/capability.rs:248-277 | The loop over the known names builds one branch for the bare names and one closed object per name |
| `CapabilitySchema.ItemsJsonSchema` | src/capability.rs:248-277 | The generated schema for the known names |
| `CapabilitySchema.KindAccepts` | src/capability.rs:261-275 | The branch of a kind accepts exactly the objects of that `type` with its list, if it has one, and no other field |
| `CapabilitySchema.MatchesOne` | src/capability.rs:250-259 | No value matches two branches |
| `CapabilitySchema.SchemaIffParses` | src/capability.rs:248-339 | The schema accepts a value if and only if it parses and carries no extra field |
| `CapabilitySchema.AcceptedByOneBranch` | src/capability.rs:248-339 | An accepted value is accepted by exactly one branch and parses to a capability of that branch's kind |
| `CapabilitySchema.OneOfRefusesTwo` | src/capability.rs:250-259 | Two accepting branches would be one too many |
| `CapabilitySchema.PlainKinds` | src/capability.rs:155-201 | The nine kinds without a list, each by its bare name |
| `CapabilitySchema.ListKinds` | src/capability.rs:224-230 | The five kinds with a list, each with its field |
| `CapabilitySchema.ParseText` | src/capability.rs:298-321 | Every text: unknown kinds, kinds that need a list, each with the field it misses, and kinds that are read |
| `CapabilitySchema.ParseObject` | src/capability.rs:322-337 | Every object: no text under `type`, an unknown kind, a list that is missing or not of texts, or the capability with that list |
| `CapabilitySchema.ParseOther` | src/capability.rs:338-348 | Every other value is refused as no entry |
| `CapabilitySchema.WriteParses` | src/capability.rs:296-339 | Every known capability is written as an accepted value that reads back as itself |
| `CapabilitySchema.BoundaryWrites` | src/abi.rs:1964-1995 | What crosses the boundary: the kind, and no text at all or an object that holds just the list under its field |
| `CapabilitySchema.BoundaryReads` | src/abi.rs:2002-2039 | Every declaration: it reads exactly when its kind is known and its arguments are empty text for a kind without a list, or an object with the list of its kind; then as that kind with that list |
| `CapabilitySchema.BoundaryErrors` | src/abi.rs:2002-2039 | The error of every other declaration: unknown kind first; then text that is no JSON, a value that is no object, or a list that is missing or not of texts |
| `CapabilitySchema.BoundaryRoundTrip` | src/abi.rs:1964-2039 | A known capability survives `from_capability` then `to_capability`; the unknown one is reported as an unknown kind |
| `CapabilitySchema.BoundaryIsParse` | src/abi.rs:2002-2039 | A declaration reads as the loose object with its kind as `type`: both readers agree on every argument object |
| `CapabilitySchema.BoundaryKeepsKind` | src/abi.rs:2002-2039 | What a declaration reads as has the declared kind, whatever `type` its arguments claim |
| `Security.BlockedIff` | src/security.rs:76-110 | An IPv4 address is blocked if and only if it lies in one of the documented blocks taken as 32-bit intervals |
| `Security.CarriedIff` | src/security.rs:119-152 | An IPv4-mapped, NAT64 or IPv4-compatible address is private exactly when the IPv4 address it carries is blocked, `::` and `::1` included |
| `Security.PrivateIff` | src/security.rs:17-29 | Every IPv6 address: private if and only if unique local, link-local, multicast, or carrying a blocked IPv4 address in one of the three encodings |
| `ResultEnvelope.VisitMap` | src/result_envelope.rs:77-103 | For any list of entries, repeated and unknown keys included: `Ok(x)` exactly when every `ok` and every `err` value can be read by its own codec and the last of these entries is an `ok` that reads as `x`; the same for `Err`; otherwise an error |
| `ResultEnvelope.Decode` | src/result_envelope.rs:159-166 | Decoding a message does the same, and fails on anything but an object |
| `ResultEnvelope.DecodesUnique` | src/result_envelope.rs:77-103 | The answer is determined by the entries |
| `ResultEnvelope.RoundTrip` | src/result_envelope.rs:134-166 | Decoding what was encoded gives exactly the result back, for every payload type |
| `ResultEnvelope.TryOkFirstIff` | src/result_envelope.rs:38-46 | Trying `ok` first gives every result back if and only if the success payload cannot be read from a missing field |
| `ResultEnvelope.OptionalSwallowsErrors` | src/result_envelope.rs:38-46 | For every optional payload it reads each error as success with nothing, where the keyed decoder returns the error |

## Left out

- SHA-256, hexadecimal output, JSON text, `serde` and `abi_stable` internals: digests are taken of the modelled streams, JSON is taken as values, a declaration's argument text as empty, the text of a value, or no JSON.
- The other calls `LateBoundBackendHost` forwards (asynchronous invocation among them) are one kind of short read of `inner`; `resolve_credentials` is not overridden in the source and is not claimed to forward.
- Inner hosts beyond subscribing, unsubscribing and firing; callbacks that call back into the host; lock poisoning; the order in which an event runs its callbacks.
- The unsubscriptions done by one `retain` count as one step, since they happen under one lock and no step of the host can come between.
- The class is sequential: it is proved against the step system with no other call running, and the step system alone speaks about interleavings.
- LateBoundTheorems.GuardsServedByBoundHost: assumes fewer than 2^64 subscriptions, because the id counter wraps and a later guard could then drop an earlier guard's slot.
- CredentialTokens.FindMatchingBrace: counts depth without bound, where the source has a 32-bit counter; the two agree on texts shorter than 2^31 - 1 (`DepthFits`), and what an overflow would do is not modelled.
- CredentialTokens.SubstituteCredTokens: works on characters, where the source indexes bytes; all delimiters are ASCII, so positions correspond.
- IdentityKey.StreamsEqualIff: assumes strings and lists shorter than 2^64, as every value in memory is, because lengths are written in eight bytes.
- LayoutFingerprint.HashedStream: for graphs in which one type id stands for different layouts it says only that the lines are those of a complete traversal, as the stream then depends on the order (`IncoherentOrderShows`). Only layouts reachable from the root matter. The compiler gives different types different ids, so no such graph comes from a build.
- LayoutFingerprint.StreamsEqualIff: assumes descriptions without line breaks; how a description is written out is not modelled.
- RedactText.RedactValue: works on values with loops over items and entries; the update in place is not modelled, since the value is borrowed by one owner alone.
- MergeSchema.MergeInPlace: the same, for the owned base map.
- Numbers in JSON values are integers, as they are only ever compared.
- CapabilitySchema.SchemaIffParses: the validator covers the keywords the schema uses (`type`, `const`, `enum`, `required`, `properties`, `additionalProperties`, `items`, `oneOf`) and no others.
- CapabilitySchema.BoundaryRoundTrip: takes for granted that JSON text written for a value reads back as that value.
- The error texts of `CapabilityParseError` beyond kind and missing field.
- ResultEnvelope.RoundTrip: takes for granted that each payload's own encoding reads back.
- Security.CarriedIff: shifts and masks are written as division and remainder on numbers.
- Grant checking (`covers`, `validate_typed_capabilities`), trust levels, header redaction, response and socket guards, error kinds and plain conversions: single-branch tables or field copies.
- Foreign-function tables, stable-ABI layouts, panic guards and asynchronous traits: no algorithm of their own.
