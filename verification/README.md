# Korvun's execution trust layer, modelled and proved in Dafny

Korvun lets a model act on behalf of people and keeps evidence of it. This project models the parts of it
that decide who may act, what the evidence says, and how concurrent and crash-prone code keeps that evidence
whole, and proves what their design promises. `dafny verify dfyconfig.toml` checks everything.

| module | models |
|---|---|
| `Paths`, `Urls`, `Effects`, `Authority`, `AuthorityEdge`, `AuthorityChains` | version 2 delegation: the path and URL matchers, one edge and one use dimension by dimension, chains of any length |
| `Attenuation` | version 1 delegation and the budget ledger |
| `Json`, `JsonGrammar`, `Canonical`, `CanonicalDepth`, `CanonicalForm`, `Digest`, `DupKeys`, `FieldNames`, `Wire`, `WireMerge`, `Sorting`, `GrantWire`, `GrantForms`, `GrantRepeats` | canonical encodings: JSON text and the grammar it is read by, canonical arguments and what they look like, the parameters digest, the scanner for repeated keys, strict decoding over what earlier keys left, the wire form of a grant, which accepted texts are canonical, and what two keys for one field make |
| `Receipts`, `Evidence`, `LedgerCheck`, `LedgerNames` | the three eras of a receipt, its hash and link, the evidence of its approval and its action, the verdict of `ledger check` and the names it prints |
| `ActRegistry`, `ActProtocol`, `ActSteps`, `ActRuns`, `ActCloses`, `ActEffects`, `ActMemory` | the registry of operator acts as a class; the close-once protocol among any number of settlers, that every step keeps its invariant, what every run guarantees, whose report a row carries, how a close ends, and what the registry's memory holds |
| `Bus`, `BusProtocol`, `BusRuns`, `ToolRing` | the event bus as a class, as interleaved steps, and over every run; the ring of recent tool events |
| `SigningKeys`, `SigningSteps`, `SigningRuns`, `SigningEffects` | boot and rotation of the signing key with a crash between any two steps, and what they do when there is none |
| `Shapes`, `Ceiling`, `NativeLoop` | the native tool-calling loop, the tool calls printed as text, and the time ceiling derived for a brain |
| `Escape` | the printer of untrusted text |

SHA-256 is a function, injective where a theorem needs it; signatures are failures some other check reports.
Instants are integers and their text form is an invertible function. The SQLite store is abstract: a
transaction is one step, a terminal row never changes, and a close births one receipt. The model, the tools,
the gate and the clock around the loop are functions.

## What the proofs found

Where the code does not keep what its own text says, the code is modelled as it is, a witness shows the
failure, and the condition under which it holds is proved.

- **Denied data.** At delegation `"*"` among the child's denied data stands for every inherited denial; at use
  denied data are compared literally. An accepted child can therefore use data its parent denies
  (`AuthorityChains.WildcardDenialWidens`). Uses tighten along a chain exactly when every denial of the
  ancestor is literally among the descendant's or never allowed there (`UsesTightenExactly`), which holds when
  no grant below the ancestor denies `"*"` (`LiteralDenialsKept`).
- **One JSON object.** The receipt parser promises to refuse anything else. It accepts `null`
  (`Receipts.NullAccepted`) and a first-era receipt followed by a closing bracket or brace and anything at all
  (`StrayBraceAccepted`). Of all the texts it accepts, those are one object which open one and have no
  closing bracket or brace behind it
  (`AcceptedIsOneObjectExactly`); which tails canonical bytes may have, era by era, is `ParseCanonicalWithTail`.
- **"The exact canonical wire form".** The grant parser accepts any order of the sets and any blanks between
  tokens (`GrantWire.ParsesEveryForm`, witness `GrantForms.BlankAccepted`). Of all the texts it accepts, the
  canonical bytes are exactly the compact prints of terms written in full, in order, with sorted sets and
  canonical times (`GrantForms.AcceptedIsCanonicalExactly`).
- **Repeated keys and repeated fields.** The scanner compares keys, the decoder folds their case, so two keys can
  pass the scanner and set one field twice. The text then parses as if the field had one key, with what the two
  values make of each other (`GrantRepeats.TwoKeysParseAsOne`), which is stated for any two values
  (`WireMerge.BothMerges`): the members of two objects count as one object's, lists go element by element, null
  leaves or empties. So of any field but the budget the later key decides when its value is written in full
  (`LaterKeyDecides`, witness `TwoIdentifiersAccepted`); the maxima of two budgets add up (`BudgetsAdd`); and a
  grant can come back with an operation that no key of its text spells out (`OperationsMix`, witness
  `MixedOperationAccepted`). With one key to a field the order of the keys means nothing
  (`Wire.OrderOfFieldsDoesNotMatter`, `GrantRepeats.AnyFieldOrder`), and keys spelled as the program declares them
  are for different fields exactly when they differ (`Wire.UniqueKeysUniqueFields`). The witnesses hold under every
  clock that writes their two instants in forty characters, and such clocks exist (`GrantForms.ShortClock`).
- **A truncated tail.** The chain does not show it (`LedgerCheck.TailUnseen`). The check of custody does, for an
  action with several receipts (`TailSeen`): a prefix of an accepted ledger is accepted exactly when each receipt
  that is now the last of its action attests the state of the action's row (`PrefixAcceptedExactly`). Retention
  never breaks an accepted ledger (`RetentionKeepsVerdict`); one of an action's rows without the other, a rewritten
  digest, state or approval, or a tombstone that proves another one refuses it (`AlteredRefused`).
- **Hosts.** Canonical hosts are lower-cased, but compared by Unicode folding: `https://s.example/` includes the
  host whose first letter is the long s, although the canonical hosts differ (`Urls.FoldedHostIncluded`). The
  matcher is exact up to that folding (`UrlIncludesExact`).
- **The registry's bounded memory.** Closed acts, their order and their receipts stay within 512. The closed
  handles are those a close moved, each to the act of its last move while that act is remembered
  (`ActMemory.ClosedHandlesExactly`), and stay within a bound exactly when these do (`ClosedHandlesBoundedExactly`):
  they do when an act is bound to one handle, as its callers bind it (`ClosedHandlesBounded`), while the registry
  itself would keep any number of them for one act (`HandlesUnbounded`). The map of profiles has no
  removal: it holds exactly the acts the registry was ever told of (`ProfilesExactly`), so it stays within a
  bound exactly when these do (`ProfilesBoundedExactly`, witness `ProfilesUnbounded`).
- **A dead recorder.** The comments promise that a recorder shut down is never used to close. It is marked dead before
  it leaves the seat of the serving app, and only the settler's own recorder is asked for its mark: in between, a
  close can go through it (`ActCloses.DeadRecorderCloses`). It does exactly when a dead recorder over the act's
  ledger holds the seat and the settler has no live one of its own; and no close ever goes over another ledger
  (`ClosedAsReported`).
- **Idempotent key generation.** Acts that run beside a server take no lock. Two of them on a fresh profile can
  leave the registry with an active key whose seed is on no disk (`SigningRuns.RacingCreatorsLoseSeed`). A run
  keeps the active seed on the disk throughout exactly when none of its steps writes over the last copy or
  registers a key without one (`SeedKeptExactly`); creating the key file under the lock only is enough
  (`ActiveSeedKept`).
- **An empty call name.** The loop keeps an empty tool result from spoiling the next request, but not an empty
  call name (`NativeLoop.NamelessCallSpoils`): the conversation stays acceptable to an adapter exactly when no
  kept call has one (`ConversationValidExactly`).
- **Idempotent normalization.** Normalizing a delegation twice is normalizing it once exactly when the merged
  maxima still validate (`AuthorityChains.NormalizeIdempotent`); an accepted child with one limit of its own,
  under a balance that names 256 other operations, passes the bound (`MergedMaximaOverflow`).

## Model

| member | source | states |
|---|---|---|
| Prelude.LessExact | internal/app/config_act_registry.go:200 | the order of keys and identifiers is the lexicographic one: at the first difference one text ends or has the smaller code point |
| Prelude.LessBehind | internal/action/action.go:92-119 | behind a common beginning the smaller code point comes first, and a text comes before its continuations |
| Paths.CleanIdempotent | internal/action/authority_v2.go:728-741 | the lexical cleaning of a path is done once |
| Paths.CleanLaws | internal/action/authority_v2.go:728-741 | an empty or "." segment goes, a segment goes with the ".." behind it, ".." at the root goes, on any text; nothing else does |
| Paths.BoundaryTest | internal/action/authority_v2.go:742-764 | comparing cleaned paths up to a slash decides exactly "these segments come first", so `/ab` is not inside `/a` |
| Paths.PathIncludesExact | internal/action/authority_v2.go:728-741 | a path resource contains another exactly when the cleaned absolute segments nest |
| Paths.PathIncludesReflexive | internal/action/authority_v2.go:728-741 | a path contains itself whenever it can be made absolute |
| Paths.PathIncludesTransitive | internal/action/authority_v2.go:728-741 | containment of paths passes along, relative ones included |
| Urls.ParsePrint | internal/action/authority_v2.go:699-721 | a canonical URL's text parses to exactly its own scheme, host, path and query |
| Urls.ParseExactly | internal/action/authority_v2.go:695-721 | a text parses to a URL exactly when it is scheme, authority without a user, rooted path, query and fragment that say so |
| Urls.CanonicalFixedPoint | internal/action/authority_v2.go:695-721 | canonicalizing a canonical URL changes nothing: escapes are not escaped again |
| Urls.UrlIncludesExact | internal/action/authority_v2.go:742-764 | a URL contains another exactly when both canonicalize, the schemes agree, the hosts fold together, the parent's query is empty or equal, and its segments come first |
| Urls.UrlIncludesReflexive | internal/action/authority_v2.go:742-764 | a URL contains itself exactly when it has a canonical form |
| Urls.UrlIncludesTransitive | internal/action/authority_v2.go:742-764 | containment of URLs passes along |
| Urls.FoldedHostIncluded | internal/action/authority_v2.go:753-755 | the witness: a URL contains another whose canonical host differs and folds to its own |
| Authority.CheckUnique | internal/action/authority_v2.go:196-231 | one list against the shared map of seen values: accepted exactly when no value is empty or repeated, whatever other kinds recorded |
| Authority.Validate | internal/action/authority_v2.go:166-252 | a grant validates exactly when header, sizes, entries and the uniqueness of all seven lists hold |
| Authority.MergeMaxima | internal/action/authority_v2.go:487-498 | the loop over the remaining maxima, in any map order: refuses exactly an excess, keeps the child's own limits, adds the missing ones |
| Authority.NormalizeAuthorityDelegation | internal/action/authority_v2.go:431-512 | one edge: the first dimension that widens is named, an accepted child comes back with the inherited maxima and is otherwise untouched |
| AuthorityEdge.EdgeExactly | internal/action/authority_v2.go:431-512 | a delegation of valid grants is accepted exactly when every one of the 21 dimensions holds against parent, intent and balance, and else names the first that does not |
| AuthorityEdge.ChainStaysInIntent | internal/action/authority_v2.go:438-508 | every delegated grant of a chain has its intent's identity, stays in its window, operations, effects, scope, depth and approval, and is issued by its parent's subject |
| AuthorityEdge.UseExactly | internal/action/authority_v2.go:767-790 | a use is allowed exactly when its resources, data and destinations are in scope, and else refused for the first that is not |
| Authority.DefaultMatchersTransitive | internal/action/authority_v2.go:728-764 | the program's own resource matchers satisfy what the chain theorem needs |
| AuthorityChains.DescendantTightens | internal/action/authority_v2.go:429-512 | at any distance operations, channels, classes, ceiling, window and approval only tighten, and the depth falls by at least the distance |
| AuthorityChains.DescendantScope | internal/action/authority_v2.go:553-579 | at any distance allowed resources, data and destinations stay inside the ancestor's and resource denials stay |
| AuthorityChains.UsesTightenExactly | internal/action/authority_v2.go:767-790 | every use the descendant may make its ancestor may make, exactly when the ancestor's data denials are literally kept |
| AuthorityChains.LiteralDenialsKept | internal/action/authority_v2.go:472-474 | without "*" among the denied data below an ancestor, its data denials reach every descendant |
| AuthorityChains.LeafUsesAreAncestorUses | internal/action/authority_v2.go:767-790 | the chain theorem with the program's own matchers, for chains of any length |
| AuthorityChains.UsesStayInIntent | internal/action/authority_v2.go:454-477 | every use of a delegated grant lies in the intent's resources, data and destinations |
| AuthorityChains.ChainLengthBound | internal/action/authority_v2.go:506-508 | no chain has more than seventeen grants |
| AuthorityChains.WildcardDenialWidens | internal/action/authority_v2.go:472-474 | the witness: an accepted child uses data that its parent denies |
| AuthorityChains.BudgetsStayWithin | internal/action/authority_v2.go:481-498 | along a chain whose balances cover their parents, every finite ancestor maximum bounds the leaf's |
| AuthorityChains.NormalizeKeepsOwnMaxima | internal/action/authority_v2.go:481-498 | normalization never changes a limit the child set itself, and what it adds is the balance's |
| AuthorityChains.NormalizeIdempotent | internal/action/authority_v2.go:481-512 | normalizing the result again gives the result, exactly when the merged maxima validate |
| AuthorityChains.MergedMaximaOverflow | internal/action/authority_v2.go:481-498 | the witness: a delegation is accepted whose result, with 257 maxima, no longer validates |
| Attenuation.LeafUsesAreAdmitted | internal/action/attenuation.go:32-101 | of active grants accepted edge by edge, whatever operation, resource, instant and class the leaf admits, every ancestor admits |
| Attenuation.AttenuationExactly | internal/action/attenuation.go:45-101 | an edge is accepted exactly when every dimension keeps, and else refused for the first that does not |
| Attenuation.ExpiryOrWindowSeparates | internal/action/attenuation.go:75-99 | a child refused for its expiry or window would admit some instant its parent does not |
| Attenuation.ChainLength | internal/action/attenuation.go:56-61 | the depth falls at every edge and bounds the length of a chain |
| Attenuation.LimitsTighten | internal/action/attenuation.go:72-77 | below a limited grant every descendant is limited, and no higher |
| Attenuation.BudgetLedger.Consume | internal/action/budget.go:33-46 | grants exactly when neither cap is reached; a denial changes nothing |
| Attenuation.LedgerKeepsBudgets | internal/action/budget.go:17-46 | after any calls the total is the sum of the counts, no cap is exceeded, and who was denied met a full cap |
| Attenuation.ExhaustedForGood | internal/action/budget.go:33-46 | an exhausted operation stays exhausted |
| Attenuation.LeafStaysWithinAncestors | internal/action/attenuation.go:72-77 | a ledger on the leaf's budgets never grants more than any ancestor's positive limit |
| Json.ReadStringPrinted | internal/action/action.go:100-119 | every string literal the encoder writes reads back as the same string, escapes included |
| Json.LexSpacedText | internal/action/action.go:100-119 | any text that spells a token sequence, blanks anywhere, lexes to that sequence |
| JsonGrammar.LiteralExactly | internal/action/action.go:100-119 | a string literal is read exactly as the pieces of section 7 of RFC 8259 spell it, surrogate pairs and lone surrogates included |
| JsonGrammar.NumberExactly | internal/action/action.go:100-119 | the number test accepts exactly the grammar of section 6 of RFC 8259 |
| JsonGrammar.DecodeExactly | internal/action/action.go:100-119 | a text decodes to a value exactly when it spells that value's tokens with blanks between them |
| Canonical.DecodeSpaced | internal/action/action.go:100-119 | any spelling of a value's tokens decodes to that value and nothing is left over |
| Canonical.NormDecidesSame | internal/action/action.go:92-119 | two decoded values are the same, as nested maps with the last key winning, exactly when their normal forms are |
| Canonical.CanonicalIdempotent | internal/action/action.go:92-119 | canonicalizing twice is canonicalizing once, on every input |
| Canonical.CanonicalAgreesExactly | internal/action/action.go:92-119 | two texts share a canonical form exactly when both are JSON of the same value or neither is JSON and they are equal |
| CanonicalForm.CanonicalOrdered | internal/action/action.go:92-112 | in the canonical form the keys of every object, at every depth, stand in order and once |
| CanonicalForm.CanonicalCompact | internal/action/action.go:92-112 | no spelling of that value is shorter, and only the one without blanks is as short |
| CanonicalForm.CanonicalHarmless | internal/action/action.go:100-119 | it holds no control character and none of <, >, & and the two line separators |
| Canonical.WhitespaceDoesNotMatter | internal/action/action.go:92-99 | the canonical form does not depend on blanks |
| CanonicalDepth.SameAnywhere | internal/action/action.go:92-99 | a value may be replaced by the same value at any depth |
| CanonicalDepth.KeyOrderAnywhere | internal/action/action.go:92-99 | an object's members in any order give the same canonical form, at any depth |
| CanonicalDepth.OverriddenAnywhere | internal/action/action.go:92-99 | a member whose key comes again later does not matter, at any depth |
| Digest.PreimageExact | internal/action/action.go:121-138 | the hashed text determines namespace, name, version and canonical arguments |
| Digest.DigestExact | internal/action/action.go:121-138 | two calls share a digest exactly when they name one operation and their arguments are the same value |
| Digest.WriteDigest | internal/action/action.go:127-138 | the digest written part by part is shared by exactly the calls of the same operation with the same arguments |
| Digest.Utf8Exactly | internal/action/action.go:127-138 | the length that prefixes a hashed field counts the bytes of its UTF-8 encoding |
| DupKeys.Scanner.Walk | internal/action/intent_v2.go:498-566 | one value is accepted exactly when it parses, no object in it repeats a key and it is at most 8 deep; then just that value is consumed and the depth is restored |
| DupKeys.RejectDuplicateJSONKeys | internal/action/intent_v2.go:498-566 | the verdict over a text, over every token stream: accepted, repeated key or malformed |
| Wire.FillFull | internal/action/authority_v2.go:296-333 | strict decoding of a value that is written out in full gives back that value |
| FieldNames.FoldExactly | internal/action/authority_v2.go:303-309 | two code points fold to one ASCII letter exactly when they are its two cases, the long s or the Kelvin sign |
| Wire.FullIsClean | internal/action/authority_v2.go:296-333 | such a value repeats no key and is no deeper than its shape, so it passes the scanner |
| Wire.UniqueKeysUniqueFields | internal/action/intent_v2.go:498-566 | keys spelled as declared are for different fields exactly when they differ |
| Wire.OrderOfFieldsDoesNotMatter | internal/action/authority_v2.go:303-309 | members for different fields decode to the same record in every order |
| WireMerge.FilledIsFull | internal/action/authority_v2.go:303-309 | whatever decodes is written out in full, so decoding it again changes nothing |
| WireMerge.BothMerges | internal/action/authority_v2.go:303-309 | what any second value for a field leaves of any first one: members of two objects count as one object's, lists go element by element, null leaves or empties, the rest replaces |
| Sorting.SortDecidesPermutation | internal/action/authority_v2.go:346-356 | two lists without ties sort alike exactly when they are permutations of each other |
| GrantWire.SortedInOrder | internal/action/authority_v2.go:254-266 | every set of the canonical terms is in order: by text, operations by their key, resources by kind and then id |
| GrantWire.ParseAuthorityGrantV2 | internal/action/authority_v2.go:296-333 | untrusted bytes: size, repeated keys, one strict value in which every key for a field decodes over what the earlier ones left, times and structure, each refusing |
| GrantWire.TermsRoundTrip | internal/action/authority_v2.go:137-163 | all 25 fields of a grant come back from their own JSON, sets in their own order |
| GrantWire.ParsesEveryForm | internal/action/authority_v2.go:295-333 | any order of sets and any blanks parse to the same terms, up to the size cap |
| GrantWire.GrantRoundTrip | internal/action/authority_v2.go:254-333 | the canonical bytes of a valid grant parse to its terms with sorted sets, unless they pass the cap |
| GrantWire.BytesDecideTerms | internal/action/authority_v2.go:254-294 | two valid grants have equal bytes exactly when every set is a permutation and every other term is equal |
| GrantWire.ParsedIsCanonicalizable | internal/action/authority_v2.go:295-333 | what parses is valid, and its canonical bytes are a fixed point |
| GrantForms.AcceptedIsCanonicalExactly | internal/action/authority_v2.go:254-333 | of the accepted texts the canonical bytes are exactly those in compact form, in full, with sorted sets and canonical times |
| GrantForms.SpacedIsCanonicalExactly | internal/action/authority_v2.go:254-333 | in any spacing and order of sets the text of a grant is canonical exactly without blanks and disorder |
| GrantForms.BlankAccepted | internal/action/authority_v2.go:295-333 | the witness: an accepted text that is not the canonical one |
| GrantForms.ShortClock | internal/action/authority_v2.go:285-289 | the clocks the witnesses ask for exist |
| GrantRepeats.AnyFieldOrder | internal/action/authority_v2.go:295-333 | a grant's fields in any order parse to its terms, up to the size cap |
| GrantRepeats.ParsesAsFilled | internal/action/authority_v2.go:295-333 | a text that passes the scanner parses like the print of what it decodes to in full, up to the size cap |
| GrantRepeats.TwoKeysParseAsOne | internal/action/authority_v2.go:300-307 | a grant with a second key for any field, with any value, passes the scanner and parses as if the field had one key with what the two values make |
| GrantRepeats.LaterKeyDecides | internal/action/authority_v2.go:300-307 | two keys for one field other than the budget, both values in full, anywhere in the text, pass the scanner and parse to the terms of the later one |
| GrantRepeats.BudgetsAdd | internal/action/authority_v2.go:300-307 | two budgets parse to the later total and the maxima of both, the later one's where both name an operation |
| GrantRepeats.OperationsMix | internal/action/authority_v2.go:300-307 | a second list with a bare name renames the first operation and keeps its namespace and version |
| GrantRepeats.TwoIdentifiersAccepted | internal/action/authority_v2.go:300-307 | the witness: a grant with two identifiers passes the scanner and is accepted under the later one |
| GrantRepeats.MixedOperationAccepted | internal/action/authority_v2.go:300-307 | the witness: an accepted text grants an operation that none of its keys spells out |
| Receipts.RoundTrip | internal/action/receipt.go:168-399 | versions 0, 2 and 3 come back with seals and off-era fields cleared, 1 as 0, later versions are refused by number |
| Receipts.LastTextWins | internal/action/receipt.go:379-392 | of several strings for one field the last wins, null leaves it, and one value of another type refuses the receipt |
| Receipts.CanonicalInjective | internal/action/receipt.go:168-251 | equal canonical bytes exactly when the signable fields, the era among them, are equal |
| Receipts.SameFieldsSameBytes | internal/action/receipt.go:168-251 | the bytes depend on the signable fields alone |
| Receipts.ParseCanonicalWithTail | internal/action/receipt.go:269-392 | exactly which text may follow canonical bytes, in which era |
| Receipts.StrayBraceAccepted | internal/action/receipt.go:379-392 | the witness: a first-era receipt and a stray brace are not one JSON value, and parse |
| Receipts.AcceptedIsOneObjectExactly | internal/action/receipt.go:269-392 | of all accepted texts those are one JSON object which open one and have no closing bracket or brace behind it; the others are null or such, in the first era |
| Receipts.NullAccepted | internal/action/receipt.go:379-392 | the witness: null is no object, and parses |
| Receipts.ParsedIsSignable | internal/action/receipt.go:269-378 | what parses carries no seal, no field of a later era, and the version that was sniffed |
| Receipts.ParsedReparses | internal/action/receipt.go:269-378 | the canonical form of what parses parses to the same receipt |
| Receipts.HashDecidesSignable | internal/action/receipt.go:253-258 | under an injective hash equal receipt hashes mean equal signable fields |
| LedgerCheck.FindRow | internal/cli/receipt.go:211-218 | the predecessor is the first row at its sequence number, or missing |
| Evidence.CheckApproval | internal/cli/receipt.go:219-333 | the failures of a sealed approval by name and in order: mark, tombstone, row; and the note when retention took it |
| Evidence.CheckCustody | internal/cli/receipt.go:353-395 | the failures of the action's rows by name: one of the two missing, unreadable, another state behind the last receipt, another digest; and the note when both are gone |
| Evidence.EvidenceExact | internal/cli/receipt.go:219-395 | no failure exactly when the sealed approval is its row's or went with its action, no tombstone says otherwise, and the action's rows are both gone or say what the receipt says |
| Evidence.PruneKeeps | internal/action/sqlite/store.go:2015-2060 | what stood before a prune stands after it, and exactly the checks that lost their rows are noted |
| LedgerCheck.VerifyReceiptChecks | internal/cli/receipt.go:167-395 | the failures of the ladder in order: round trip, hash, key and its window, link, approval, custody; and the degraded checks |
| LedgerCheck.KeyFailuresExact | internal/cli/receipt.go:185-206 | no key failure exactly when the key is registered and readable, the signature good, and the receipt sealed inside the key's life |
| LedgerNames.NamesExactly | internal/cli/receipt.go:167-395 | each of the fifteen names is printed for a receipt exactly when its fault is there, and no other name ever is |
| LedgerNames.FirstNameExactly | internal/cli/receipt.go:167-395 | the first failure is the first fault in the order of the ladder |
| LedgerNames.VerdictNames | internal/cli/ledger.go:118-128 | the verdict carries a name at a place exactly when the sequence is whole, no earlier receipt has a fault, and that fault is the first of the receipt there |
| LedgerNames.EditNamed | internal/cli/receipt.go:181-183 | a signed field edited and the stored hash kept is judged hash_mismatch at its place, unless the edit takes an earlier receipt's evidence away |
| LedgerCheck.Check | internal/cli/ledger.go:98-144 | the verdict names the first gap or repeated number, else the first receipt with a failure and its first failure, else the count and the degraded checks |
| LedgerCheck.VerdictUnique | internal/cli/ledger.go:98-144 | a ledger deserves one verdict |
| LedgerCheck.AcceptedRow | internal/cli/ledger.go:118-128 | in an accepted ledger each stored hash is the content's and each row names its predecessor's hash, the first the genesis hash; its key is registered, its signature good, its time inside the key's life, and its evidence stands |
| LedgerCheck.TipDecidesLedger | internal/cli/ledger.go:98-144 | two accepted ledgers with the same last hash have equal length and equal signable content at every place |
| LedgerCheck.EditRefused | internal/cli/receipt.go:181-218 | changing a signed field of one row, the last hash kept, is refused |
| LedgerCheck.PrefixAcceptedExactly | internal/cli/ledger.go:98-144 | a truncated tail leaves an accepted ledger exactly when each receipt left as the last of its action attests the state of the action's row |
| LedgerCheck.TailUnseen | internal/cli/ledger.go:98-144 | the witness: an accepted ledger whose proper prefix is accepted |
| LedgerCheck.TailSeen | internal/cli/receipt.go:384-386 | the witness: an accepted ledger whose proper prefix is refused |
| LedgerCheck.DropIsGap | internal/cli/ledger.go:102-111 | in a ledger in sequence, whatever else is broken, dropping an inner receipt is denounced as a gap at its own place |
| LedgerCheck.CloneIsDuplicate | internal/cli/ledger.go:112-116 | in a ledger in sequence, a second receipt at an occupied number is denounced right behind the first |
| LedgerCheck.AppendAccepted | internal/action/receipt.go:260-268 | a receipt that was linked and hashed as the store does, and agrees with the evidence its close leaves, extends an accepted ledger |
| LedgerCheck.RetentionKeepsVerdict | internal/cli/receipt.go:159-166 | after any prune an accepted ledger is accepted, with at least as many degraded checks |
| LedgerCheck.AlteredRefused | internal/cli/receipt.go:334-395 | one row of an action without the other, another digest, another state behind its last receipt, an approval gone or rewritten while the action's row stays, or a tombstone that does not prove the sealed one: the ledger is refused |
| ActRegistry.ConfigActRegistry.RememberAct | internal/app/config_act_registry.go:162-169 | the seal records the act's home and profile |
| ActRegistry.ConfigActRegistry.Detach | internal/app/config_act_registry.go:213-225 | a recorder shut down is dead, and unseats only itself |
| ActRegistry.ConfigActRegistry.CollectInFlight | internal/app/config_act_registry.go:184-202 | the acts in flight in one ledger, each once, in order |
| ActRegistry.HandleFindsAct | internal/app/config_act_registry.go:276-296 | across a close a handle finds the act it found before, moved or not, until that act is evicted; then nothing |
| ActRegistry.ConfigActRegistry.EnterSettle | internal/app/config_act_registry.go:309-346 | the first critical section: remembered, in progress, or the close taken with the closer chosen by vitality |
| ActRegistry.ConfigActRegistry.LeaveSettle | internal/app/config_act_registry.go:358-373 | the last critical section: a close that landed moves the act to memory, one that did not leaves it open |
| ActRegistry.ConfigActRegistry.ForgetOldestClosed | internal/app/config_act_registry.go:378-391 | eviction, oldest first, with the handles of the evicted |
| ActRegistry.ForgetBounds | internal/app/config_act_registry.go:378-391 | what eviction keeps is exactly the newest 512 with their receipts |
| ActRegistry.LeaveKeepsBounded | internal/app/config_act_registry.go:358-373 | the order lists exactly the remembered acts without repeats, within 512, and closed handles name remembered acts |
| ActSteps.InvKept | internal/app/config_act_registry.go:298-376 | every step of every settler, of the serving app and of other hands keeps the protocol's invariant |
| ActRuns.OneCloser | internal/app/config_act_registry.go:298-376 | in every interleaving at most one settler is inside the close of an act, and no act is both closing and remembered closed |
| ActRuns.OneReceipt | internal/app/config_act_registry.go:298-376 | all non-empty receipts ever answered for an act are equal, over failed closes, evictions and retries |
| ActCloses.ClosedAsReported | internal/app/config_act.go:222-250 | in every run a row that closes was closed by another hand or by a settler as it reported when it entered: succeeded exactly when applied, marked exactly for an applied founding, in the act's home, through the recorder that fits |
| ActCloses.DeadRecorderCloses | internal/app/config_act_registry.go:213-225 | the witness: a recorder marked dead and still in its seat is used to close |
| ActEffects.LandedCloseSettles | internal/app/config_act.go:231-256 | a close that lands, with or without an error reported, answers its receipt, remembers it and releases the waiters |
| ActEffects.RefusedCloseSettles | internal/app/config_act.go:235-250 | a close that is refused answers the receipt of another hand's, if there was one, and else leaves the act open for the next settler |
| ActRuns.RunGrows | internal/app/config_act.go:224-256 | the ledger keeps the outcome and receipt of whichever close landed first |
| ActRuns.InFlightSpared | internal/app/config_act_registry.go:184-202 | an act the process was told of and whose row is still authorized is among those in flight |
| ActRuns.MemoryBounded | internal/app/config_act_registry.go:116-122 | at every lock release the memory of closed acts is indexed, without repeats and within 512 |
| ActRuns.NoLostWaiter | internal/app/config_act_registry.go:318-329 | the channel a waiter waits on is closed, or some settler is still due to close it |
| ActMemory.WaiterHearsCloser | internal/app/config_act_registry.go:318-329 | unless the act was evicted in between, a waiter that wakes answers the very receipt the closer answers |
| ActMemory.ClosedHandlesExactly | internal/app/config_act_registry.go:358-391 | in every run the closed handles are exactly those a close moved, each with the act of its last move, while that act has been remembered |
| ActMemory.ClosedHandlesBoundedExactly | internal/app/config_act_registry.go:116-122 | they stay within a bound exactly when the handles so moved and kept do |
| ActMemory.ClosedHandlesBounded | internal/app/config_act_registry.go:116-122 | when acts are bound to one handle each, the closed handles are no more than the closed acts, 512 |
| ActMemory.HandlesUnbounded | internal/app/config_act_registry.go:181-188 | the witness: one closed act can leave any number of closed handles |
| ActMemory.ProfilesExactly | internal/app/config_act_registry.go:162-169 | in every run the map of profiles holds exactly the acts the registry was told of |
| ActMemory.ProfilesBoundedExactly | internal/app/config_act_registry.go:162-169 | it stays within a bound exactly when the acts told of do |
| ActMemory.ProfilesUnbounded | internal/app/config_act_registry.go:162-169 | the witness: for every n a run of opened and closed acts leaves n entries in the map of profiles |
| Bus.InMemoryBus.Publish | internal/bus/bus.go:206-215 | every current subscriber of the topic is offered the event once, nobody else is, and a full buffer counts one drop |
| Bus.InMemoryBus.Subscribe | internal/bus/bus.go:222-256 | a fresh open channel under its topic; nothing on a closed bus |
| Bus.InMemoryBus.Unsubscribe | internal/bus/bus.go:246-255 | out of the map and closed, and idempotent |
| Bus.InMemoryBus.Close | internal/bus/bus.go:259-278 | every subscriber's channel closed, nobody else's touched, and idempotent |
| BusProtocol.SendsAreUnordered | internal/bus/bus.go:206-215 | in the interleaving, a publisher's sends leave what the Publish of the object leaves, whatever order the map yields |
| BusProtocol.InvKept | internal/bus/bus.go:169-278 | every step of every publisher, subscriber, closer and drain goroutine keeps the bus's invariant |
| BusRuns.NoPanic | internal/bus/bus.go:200-215 | no interleaving sends on a closed channel or closes one twice |
| BusRuns.PublishReaches | internal/bus/bus.go:200-215 | in every run a publication reaches exactly those who are subscribed to its topic when it begins, once each, in whatever order |
| BusRuns.DeliveredInOrder | internal/bus/bus.go:200-245 | what a subscriber got and holds is an in-order selection of what it was offered: each publication it was there for, once |
| BusRuns.AttemptsAccounted | internal/bus/bus.go:206-215 | attempted sends are accepted sends plus the drop count |
| BusRuns.NoLeak | internal/bus/bus.go:259-278 | once the bus is closed and its closers are done, every channel ever made is closed |
| BusRuns.ClosedIsFinal | internal/bus/bus.go:181-186 | a closed channel stays closed and is offered nothing more |
| ToolRing.ToolEventRing.Record | internal/app/tools_report.go:68-76 | the ring agrees with the full history before and after, through the wrap and at size one |
| ToolRing.ToolEventRing.LastFor | internal/app/tools_report.go:80-103 | the last k entries of a brain among the last entries ever recorded, oldest first |
| ToolRing.ForBrainExactly | internal/app/tools_report.go:80-103 | a brain's entries are all of its own, each as often as it was recorded, and nobody else's |
| ToolRing.RingAnswersForHistory | internal/app/tools_report.go:78-103 | the ring's answer is the end of the answer over the whole history |
| SigningSteps.InvKept | internal/app/signing.go:41-170 | every step of every boot, rotation and operator act, and every crash, keeps the key protocol's invariant |
| SigningEffects.RotationRotates | internal/app/signing.go:144-170 | in every run a rotation's steps retire the old key, activate the new one and put its seed in the file; a failed swap leaves the seed staged, a refusal touches only the staged file |
| SigningEffects.NextSealIsNew | internal/cli/receipt.go:482-496 | once the registry has turned, whoever seals next, the seal is the new key's |
| SigningEffects.BootBoots | internal/app/signing.go:48-127 | what every kind of boot ends in, by the key file and the registry: up with the file's key, registered when it is the first, refused for a retired key or another active one, or up with a new key |
| SigningRuns.OneActiveKey | internal/app/signing.go:98-127 | at most one key is active, and it is not retired |
| SigningRuns.HeldKeyIsActive | internal/cli/receipt.go:443-457 | the key of a live server that registered it, or of a rotation past its transaction, is the active one while it holds the lock |
| SigningRuns.RetiredForever | internal/app/signing.go:92-97 | through every later crash, boot and rotation a retired key is never active again |
| SigningRuns.SealsInWindows | internal/action/sqlite/ledger.go:100-124 | no key seals again after another one has |
| SigningRuns.RetiredFileHasHeir | internal/app/signing.go:137-170 | whenever the key file holds a retired key, the staged seed is the active key |
| SigningRuns.RecoveryBoots | internal/app/signing.go:98-107 | in that window a boot that registers its key is refused and touches nothing, one that does not seals nothing, and moving the staged seed into place makes every kind of boot work on the active key |
| SigningRuns.StepLosesExactly | internal/app/signing.go:48-170 | which single steps lose the active seed: a write over its last copy, or the registration of a key that has none |
| SigningRuns.SeedKeptExactly | internal/app/signing.go:48-170 | a run keeps the active seed on the disk throughout exactly when none of its steps is such a loss |
| SigningRuns.ActiveSeedKept | internal/app/signing.go:77-96 | if the key file is only created under the lock, the active key's seed is always in the file or staged |
| SigningRuns.RacingCreatorsLoseSeed | internal/app/signing.go:48-96 | the witness: two acts without the lock on a fresh profile lose the active seed |
| Shapes.ToolCallShape | internal/brain/protocol.go:108-145 | noise lines are stripped at both edges and the whole body is judged |
| Shapes.NoiseDoesNotMatter | internal/brain/protocol.go:92-145 | fences and blank lines around a reply never hide its shape |
| Shapes.FenceExactly | internal/brain/protocol.go:36-42 | a fence is three backticks or more and then letters and digits only |
| Shapes.RescueExact | internal/brain/agent_native.go:236-268 | a reply is rescued exactly when it has the shape and names a registered tool |
| Shapes.RescuedReach | internal/brain/agent_native.go:244-286 | the first argument key that is there decides what a rescued call hands to its tool: a string as it is, an object as its members, anything else as nothing |
| Shapes.ArgumentsSurvive | internal/brain/agent_native.go:270-286 | arguments that are not one string reach the tool as JSON of the same value; a printed call's are the printed value exactly where its numbers are the literals of their floats |
| Ceiling.DeriveBrainCeiling | internal/app/ceiling.go:67-96 | the worst model, the sum of models, or the iterations times window and tools, each with the margin |
| Ceiling.AgentToolBudget | internal/app/ceiling.go:98-121 | eight times the widest bound among the listed tools |
| Ceiling.AgentModel | internal/app/ceiling.go:170-189 | the first model the privacy selector keeps, else the first |
| Ceiling.PrivateStaysLocal | internal/app/ceiling.go:170-189 | a private brain with a local model has a local model counted, whatever comes first |
| Ceiling.CeilingForBrain | internal/app/ceiling.go:155-222 | the ceiling of a brain of each shape, from its own models, retries and tools |
| Ceiling.DeriveRouterCeiling | internal/app/ceiling.go:131-153 | the maximum over the brains; an override is honoured exactly when it covers them all |
| NativeLoop.TakeTurn | internal/brain/agent_native.go:87-172 | one turn: the first eight calls, each heard once in order under its own name and id, one notice for the rest |
| NativeLoop.TurnSays | internal/brain/agent_native.go:87-172 | the first eight calls in their order, each answered under its name and id, a printed call is no content |
| NativeLoop.GateFirst | internal/brain/agent_native.go:115-140 | a name outside the gate's list is put to the gate before its arguments are read; any other runs on its tool's arguments or not at all |
| NativeLoop.RunLoopNative | internal/brain/agent_native.go:45-178 | the conversation grows by such turns only, and the run ends for exactly the stated reason |
| NativeLoop.RunUnique | internal/brain/agent_native.go:45-178 | the world leaves one conversation and one end |
| NativeLoop.MessagesBounded | internal/brain/agent_native.go:28-41 | at most ten messages an iteration |
| NativeLoop.ConversationValidExactly | internal/model/errors.go:105-152 | what is sent next is acceptable exactly when the seeds were and every kept call has a name |
| NativeLoop.NamelessCallSpoils | internal/brain/agent_native.go:120-163 | the witness: one nameless call, and the next request is refused |
| NativeLoop.RunFitsRouterCeiling | internal/app/ceiling.go:123-203 | a run whose calls keep their window and tools their bounds takes at most the router's ceiling less the margin |
| NativeLoop.GuardExact | internal/brain/agent.go:534-548 | the channel's guard blocks exactly the shaped answers, and those name no registered tool |
| Escape.EscapeUntrusted | internal/cli/escape.go:23-36 | the loop prints every rune as its escape or itself |
| Escape.EscapeRoundTrip | internal/cli/escape.go:12-36 | an explicit decoder gives back every text |
| Escape.EscapeInjective | internal/cli/escape.go:12-22 | two texts that print the same are the same |
| Escape.ClearPrintsItself | internal/cli/escape.go:12-36 | a text prints as itself exactly when every rune of it can be seen for what it is |
| Escape.EscapedForm | internal/cli/escape.go:23-36 | a rune that cannot be seen prints as its number in capital hexadecimal, four digits or as many as it needs |
| Escape.PrintsVisibly | internal/cli/escape.go:12-36 | the printed text holds nothing unseen but the ASCII space, and every "<" in it opens an escape |

## Left out

- A nil list or map and an empty one are one value, and so are a slice and its clone: sorting a copy and
  linking a receipt in place are modelled on values.
- Integers have no width. JSON text is code points: invalid UTF-8 and the decoder's nesting cap of 10000 are not
  modelled, and a number is its longest run of number characters, so two numbers run together are no token.
- URLs with an IP literal in brackets are refused, and hosts are lower-cased as ASCII; the folding that compares
  hosts is a parameter of which only that it is an equivalence is used.
- SHA-256, Ed25519, random identities and the operating system's file lock are assumed; the store's SQL, the
  executor, the gate, the supervisor, HTTP, the command line and logging are not part of this model.
- Failures are their names: the words behind a name are not part of this model, and the rows of an approval and of a
  tombstone are what reading them answers.
- ActSteps.InvKept: `closeTransient` reads the map of profiles without the mutex; the protocol takes every
  read of the registry as part of a step.
- The founding and adoption of a ledger, the identity of created files, and the action and lifecycle tables are
  not part of this model.
- SigningSteps.InvKept: a completed write or rename survives a crash; file modes and unreadable files are
  processes that die; a key file or registry restored from a backup is not modelled.
- NativeLoop.RunFitsRouterCeiling: covers one loop of the native lane; the fall back to the text lane and retries
  inside a model call are outside, and a tool bound widened by configuration breaks its premise.
- The intent contract's own wire form, which repeats the grant's with other fields, the wire form of a
  configuration clause, and the analyzers that derive a use from arguments are not part of this model.
- The text lane's reply grammar, the system prompt and the conversation store are not part of this model.
- Escape.PrintsVisibly: the Unicode tables are a parameter of which only visible ASCII is assumed.
