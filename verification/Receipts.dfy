/**
 Execution receipts: the canonical wire forms of the three eras, the parser of untrusted canonical
 bytes, the receipt hash and the chain link.

 Instants are integers with 0 for Go's zero time; their text form is a parameter.
 */
module Receipts {
  import opened Prelude
  import opened Json
  import opened Canonical
  import opened FieldNames

  datatype Receipt = Receipt(
    receiptId: string, schemaVersion: int, actionId: string, intentDigest: string, principalId: string,
    authorityDigest: string, decisionDigest: string, actionDigest: string, effectClass: string,
    attempt: int, outcome: string, resultDigest: string, approvalDigest: string,
    identityStatus: string, requester: string, actor: string, responsible: string,
    identityEvidenceDigest: string, identitySnapshotDigest: string,
    startedAt: int, finishedAt: int, partition: string, chainSeq: int, previousReceiptHash: string,
    receiptHash: string, signingKeyId: string, signature: string)

  const GENESIS := "sha256:e3b0c44298fc1c149afbf4c8996fb92427ae41e4649b934ca495991b7852b855"

  // ---- Times ----

  /** The canonical text of a non-zero instant and its reading back (RFC 3339 with nanoseconds). */
  datatype Clock = Clock(format: int -> string, parse: string -> Option<int>)

  ghost predicate Lawful(clock: Clock) {
    forall t :: t != 0 ==> clock.format(t) != "" && clock.parse(clock.format(t)) == Some(t)
  }

  /** One such clock: it writes an instant as its numeral. */
  const NUMERALS := Clock(IntText, IntValue)

  lemma NumeralsLawful()
    ensures Lawful(NUMERALS)
  {
    forall t ensures NUMERALS.format(t) != "" && NUMERALS.parse(NUMERALS.format(t)) == Some(t) {
      IntRoundTrip(t);
    }
  }

  function TimeTerm(clock: Clock, t: int): string { if t == 0 then "" else clock.format(t) }

  function ParseTimeTerm(clock: Clock, s: string): Option<int> { if s == "" then Some(0) else clock.parse(s) }

  // ---- Wire forms ----

  datatype Era = V1 | V2 | V3

  function EraOf(r: Receipt): Era { if r.schemaVersion >= 3 then V3 else if r.schemaVersion >= 2 then V2 else V1 }

  datatype Field =
    | SchemaVersion | ReceiptId | ActionId | IntentDigest | PrincipalId | AuthorityDigest | DecisionDigest |
        ActionDigest
    | ApprovalDigest | IdentityStatus | Requester | Actor | Responsible | IdentityEvidence | IdentitySnapshot
    | EffectClass | Attempt | Outcome | ResultDigest | StartedAt | FinishedAt | Partition | ChainSeq | PreviousHash

  /** The name of a field on the wire. */
  function NameOf(f: Field): string {
    match f
    case SchemaVersion => "schema_version"
    case ReceiptId => "receipt_id"
    case ActionId => "action_id"
    case IntentDigest => "intent_digest"
    case PrincipalId => "principal_id"
    case AuthorityDigest => "authority_digest"
    case DecisionDigest => "decision_digest"
    case ActionDigest => "action_digest"
    case ApprovalDigest => "approval_digest"
    case IdentityStatus => "identity_status"
    case Requester => "requester_principal_id"
    case Actor => "actor_principal_id"
    case Responsible => "responsible_principal_id"
    case IdentityEvidence => "identity_evidence_digest"
    case IdentitySnapshot => "identity_snapshot_digest"
    case EffectClass => "effect_class"
    case Attempt => "attempt"
    case Outcome => "outcome"
    case ResultDigest => "result_digest"
    case StartedAt => "started_at"
    case FinishedAt => "finished_at"
    case Partition => "partition"
    case ChainSeq => "chain_seq"
    case PreviousHash => "previous_receipt_hash"
  }

  /** The fields of the third era, in declaration order. */
  const ALL_FIELDS :=
    [ SchemaVersion, ReceiptId, ActionId, IntentDigest, PrincipalId, AuthorityDigest, DecisionDigest,
      ActionDigest, ApprovalDigest, IdentityStatus, Requester, Actor, Responsible, IdentityEvidence,
      IdentitySnapshot, EffectClass, Attempt, Outcome, ResultDigest, StartedAt, FinishedAt, Partition,
      ChainSeq, PreviousHash ]

  predicate IdentityField(f: Field) {
    f == IdentityStatus || f == Requester || f == Actor || f == Responsible || f == IdentityEvidence ||
        f == IdentitySnapshot
  }

  /** The earlier eras have the same fields but for those that came later. */
  predicate InEra(era: Era, f: Field) {
    match era
    case V1 => f != SchemaVersion && f != ApprovalDigest && !IdentityField(f)
    case V2 => !IdentityField(f)
    case V3 => true
  }

  function Select(fields: seq<Field>, era: Era): (r: seq<Field>)
    ensures forall f :: f in r <==> f in fields && InEra(era, f)
  {
    if fields == [] then []
    else (if InEra(era, fields[0]) then [fields[0]] else []) + Select(fields[1..], era)
  }

  function Fields(era: Era): seq<Field> { Select(ALL_FIELDS, era) }

  predicate IsNumber(f: Field) { f == SchemaVersion || f == Attempt || f == ChainSeq }

  function FieldNumber(r: Receipt, f: Field): int
    requires IsNumber(f)
  { if f == SchemaVersion then r.schemaVersion else if f == Attempt then r.attempt else r.chainSeq }

  function FieldText(clock: Clock, r: Receipt, f: Field): string
    requires !IsNumber(f)
  {
    match f
    case ReceiptId => r.receiptId
    case ActionId => r.actionId
    case IntentDigest => r.intentDigest
    case PrincipalId => r.principalId
    case AuthorityDigest => r.authorityDigest
    case DecisionDigest => r.decisionDigest
    case ActionDigest => r.actionDigest
    case ApprovalDigest => r.approvalDigest
    case IdentityStatus => r.identityStatus
    case Requester => r.requester
    case Actor => r.actor
    case Responsible => r.responsible
    case IdentityEvidence => r.identityEvidenceDigest
    case IdentitySnapshot => r.identitySnapshotDigest
    case EffectClass => r.effectClass
    case Outcome => r.outcome
    case ResultDigest => r.resultDigest
    case Partition => r.partition
    case PreviousHash => r.previousReceiptHash
    case StartedAt => TimeTerm(clock, r.startedAt)
    case FinishedAt => TimeTerm(clock, r.finishedAt)
  }

  function MemberFor(clock: Clock, r: Receipt, f: Field): Member {
    Member(NameOf(f), if IsNumber(f) then NumTree(IntText(FieldNumber(r, f))) else StrTree(FieldText(clock, r, f)))
  }

  function MembersFor(clock: Clock, r: Receipt, fields: seq<Field>): (ms: seq<Member>)
    ensures |ms| == |fields| && forall i :: 0 <= i < |fields| ==> ms[i] == MemberFor(clock, r, fields[i])
  { seq(|fields|, i requires 0 <= i < |fields| => MemberFor(clock, r, fields[i])) }

  function Wire(clock: Clock, r: Receipt): Tree { ObjTree(MembersFor(clock, r, Fields(EraOf(r)))) }

  /** CanonicalReceipt: declaration order in eras 2 and 3, sorted keys in era 1. */
  function CanonicalReceipt(clock: Clock, r: Receipt): string {
    if EraOf(r) == V1 then CanonicalParams(Print(Wire(clock, r))) else Print(Wire(clock, r))
  }

  // ---- Parsing untrusted bytes ----

  datatype ParseError = UnknownVersion(version: int) | BadWire | BadTime

  /** encoding/json into a string field: every occurrence is a string or null, the last string wins. */
  function ReadText(ms: seq<Member>, key: string, soFar: string): Option<string> {
    if ms == [] then Some(soFar)
    else if !SameName(ms[0].key, key) || ms[0].value.NullTree? then ReadText(ms[1..], key, soFar)
    else if ms[0].value.StrTree? then ReadText(ms[1..], key, ms[0].value.text)
    else None
  }

  function NumberIn(t: Tree): Option<int> { if t.NumTree? then IntValue(t.literal) else None }

  /** encoding/json into an integer field. */
  function ReadInt(ms: seq<Member>, key: string, soFar: int): Option<int> {
    if ms == [] then Some(soFar)
    else if !SameName(ms[0].key, key) || ms[0].value.NullTree? then ReadInt(ms[1..], key, soFar)
    else match NumberIn(ms[0].value)
      case None => None
      case Some(n) => ReadInt(ms[1..], key, n)
  }

  /** Of several strings for one field the last wins, null leaves it, and one value of another type refuses it. */
  lemma {:induction false} LastTextWins(ms: seq<Member>, m: Member, key: string, soFar: string)
    ensures ReadText(ms + [m], key, soFar) ==
            if ReadText(ms, key, soFar).None? then None
            else if !SameName(m.key, key) || m.value.NullTree? then ReadText(ms, key, soFar)
            else if m.value.StrTree? then Some(m.value.text) else None
  {
    if ms == [] {
      assert [] + [m] == [m] && [m][1..] == [];
    } else {
      assert (ms + [m])[1..] == ms[1..] + [m];
      LastTextWins(ms[1..], m, key, if SameName(ms[0].key, key) &&
          ms[0].value.StrTree? then ms[0].value.text else soFar);
    }
  }

  /** The same for a number. */
  lemma {:induction false} LastNumberWins(ms: seq<Member>, m: Member, key: string, soFar: int)
    ensures ReadInt(ms + [m], key, soFar) ==
            if ReadInt(ms, key, soFar).None? then None
            else if !SameName(m.key, key) || m.value.NullTree? then ReadInt(ms, key, soFar)
            else NumberIn(m.value)
  {
    if ms == [] {
      assert [] + [m] == [m] && [m][1..] == [];
    } else {
      assert (ms + [m])[1..] == ms[1..] + [m];
      LastNumberWins(ms[1..], m, key,
          if SameName(ms[0].key, key) && NumberIn(ms[0].value).Some? then NumberIn(ms[0].value).value else soFar);
    }
  }

  /** The lax sniff keeps going past a value of the wrong type. */
  function SniffMembers(ms: seq<Member>, soFar: int): int {
    if ms == [] then soFar
    else if !SameName(ms[0].key, NameOf(SchemaVersion)) then SniffMembers(ms[1..], soFar)
    else match NumberIn(ms[0].value)
      case None => SniffMembers(ms[1..], soFar)
      case Some(n) => SniffMembers(ms[1..], n)
  }

  /** json.Unmarshal of the version alone: 0 unless the whole text is one JSON object that names one. */
  function Sniff(raw: string): int {
    match Decode(raw)
    case Some(ObjTree(ms)) => SniffMembers(ms, 0)
    case _ => 0
  }

  predicate KnownKey(key: string, era: Era) { exists f: Field :: InEra(era, f) && SameName(NameOf(f), key) }

  /** dec.More after the value: false at the end of the text, and before a closing bracket or brace. */
  predicate NothingMore(tokens: seq<Token>, text: string) {
    if tokens == [] then text == "" else tokens[0] == RightBracket || tokens[0] == RightBrace
  }

  /** strictUnmarshal: one value with known fields and nothing more; null decodes as no field at all. */
  function StrictMembers(raw: string, era: Era): Option<seq<Member>> {
    var l := Lex(raw);
    match ParseValue(l.tokens)
    case NoParse => None
    case Done(tree, rest) =>
      if !NothingMore(rest, l.rest) then None
      else match tree
        case NullTree => Some([])
        case ObjTree(ms) => if forall m :: m in ms ==> KnownKey(m.key, era) then Some(ms) else None
        case _ => None
  }

  /** Every field of the era reads as a value of its type. */
  predicate TypesOk(ms: seq<Member>, era: Era) {
    forall f :: InEra(era, f) ==>
                  if IsNumber(f) then ReadInt(ms, NameOf(f), 0).Some? else ReadText(ms, NameOf(f), "").Some?
  }

  function TextOf(ms: seq<Member>, era: Era, f: Field): string {
    if InEra(era, f) && ReadText(ms, NameOf(f), "").Some? then ReadText(ms, NameOf(f), "").value else ""
  }

  function IntOf(ms: seq<Member>, era: Era, f: Field): int {
    if InEra(era, f) && ReadInt(ms, NameOf(f), 0).Some? then ReadInt(ms, NameOf(f), 0).value else 0
  }

  function FromWire(clock: Clock, ms: seq<Member>, era: Era): Result<Receipt, ParseError> {
    if !TypesOk(ms, era) then Err(BadWire)
    else
      var started := ParseTimeTerm(clock, TextOf(ms, era, StartedAt));
      var finished := ParseTimeTerm(clock, TextOf(ms, era, FinishedAt));
      if started.None? || finished.None? then Err(BadTime)
      else Ok(ReceiptFrom(f => TextOf(ms, era, f), f => IntOf(ms, era, f), started.value, finished.value))
  }

  /** The unsealed receipt with these texts, numbers and times. */
  function ReceiptFrom(text: Field -> string, number: Field -> int, startedAt: int, finishedAt: int): Receipt {
    Receipt(text(ReceiptId), number(SchemaVersion), text(ActionId), text(IntentDigest), text(PrincipalId),
            text(AuthorityDigest), text(DecisionDigest), text(ActionDigest), text(EffectClass),
            number(Attempt), text(Outcome), text(ResultDigest), text(ApprovalDigest),
            text(IdentityStatus), text(Requester), text(Actor), text(Responsible),
            text(IdentityEvidence), text(IdentitySnapshot),
            startedAt, finishedAt, text(Partition), number(ChainSeq), text(PreviousHash), "", "", "")
  }

  function ParseEra(clock: Clock, raw: string, era: Era): Result<Receipt, ParseError> {
    match StrictMembers(raw, era)
    case None => Err(BadWire)
    case Some(ms) => FromWire(clock, ms, era)
  }

  /** ParseCanonicalReceipt: the sniffed version picks the era, then that era's strict parse. */
  function ParseCanonicalReceipt(clock: Clock, raw: string): Result<Receipt, ParseError> {
    match Sniff(raw)
    case 0 => ParseEra(clock, raw, V1)
    case 2 => ParseEra(clock, raw, V2)
    case 3 => ParseEra(clock, raw, V3)
    case v => Err(UnknownVersion(v))
  }

  // ---- The signable content ----

  /** What the canonical bytes say of a receipt: no seals, no field of a later era, version 0 in era 1. */
  function Signable(r: Receipt): Receipt {
    var unsealed := r.(receiptHash := "", signingKeyId := "", signature := "");
    match EraOf(r)
    case V1 => WithoutIdentity(unsealed).(schemaVersion := 0, approvalDigest := "")
    case V2 => WithoutIdentity(unsealed)
    case V3 => unsealed
  }

  function WithoutIdentity(r: Receipt): Receipt {
    r.(identityStatus := "", requester := "", actor := "", responsible := "",
       identityEvidenceDigest := "", identitySnapshotDigest := "")
  }

  // ---- Field names ----

  /** Length, first and tenth character tell the names apart. */
  function Signature(f: Field): (nat, char, char) {
    var n := NameOf(f);
    (|n|, if n != "" then n[0] else ' ', if |n| > 9 then n[9] else ' ')
  }

  /** Length and two characters of a name, spelled out. */
  lemma SignatureOf(f: Field)
    ensures Signature(f) ==
            match f
            case SchemaVersion => (14, 's', 'r') case ReceiptId => (10, 'r', 'd') case ActionId => (9, 'a', ' ')
            case IntentDigest => (13, 'i', 'g') case PrincipalId => (12, 'p', '_')
            case AuthorityDigest => (16, 'a', '_') case DecisionDigest => (15, 'd', 'd')
            case ActionDigest => (13, 'a', 'g') case ApprovalDigest => (15, 'a', 'd')
            case IdentityStatus => (15, 'i', 's') case Requester => (22, 'r', '_') case Actor => (18, 'a', 'n')
            case Responsible => (24, 'r', 'l') case IdentityEvidence => (24, 'i', 'e')
            case IdentitySnapshot => (24, 'i', 's') case EffectClass => (12, 'e', 'a') case Attempt => (7, 'a', ' ')
            case Outcome => (7, 'o', ' ') case ResultDigest => (13, 'r', 'g') case StartedAt => (10, 's', 't')
            case FinishedAt => (11, 'f', 'a') case Partition => (9, 'p', ' ') case ChainSeq => (9, 'c', ' ')
            case PreviousHash => (21, 'p', 'r')
  { }

  lemma SignaturesDiffer(f: Field, g: Field)
    requires f != g
    ensures Signature(f) != Signature(g)
  {
    hide Signature;
    SignatureOf(f);
    SignatureOf(g);
  }

  lemma NamesDiffer(f: Field, g: Field)
    requires f != g
    ensures NameOf(f) != NameOf(g)
  {
    hide NameOf;
    SignaturesDiffer(f, g);
  }

  lemma NamesLower1(f: Field)
    requires f.SchemaVersion? || f.ReceiptId? || f.ActionId? || f.IntentDigest? || f.PrincipalId? ||
             f.AuthorityDigest?
    ensures Lower(NameOf(f))
  { }

  lemma NamesLower2(f: Field)
    requires f.DecisionDigest? || f.ActionDigest? || f.ApprovalDigest? || f.IdentityStatus? || f.Requester? ||
             f.Actor?
    ensures Lower(NameOf(f))
  { }

  lemma NamesLower3(f: Field)
    requires f.Responsible? || f.IdentityEvidence? || f.IdentitySnapshot? || f.EffectClass? || f.Attempt? ||
             f.Outcome?
    ensures Lower(NameOf(f))
  { }

  lemma NamesLower4(f: Field)
    requires f.ResultDigest? || f.StartedAt? || f.FinishedAt? || f.Partition? || f.ChainSeq? || f.PreviousHash?
    ensures Lower(NameOf(f))
  { }

  lemma NameIsLower(f: Field)
    ensures Lower(NameOf(f))
  {
    hide NameOf, Lower;
    match f
    case SchemaVersion | ReceiptId | ActionId | IntentDigest | PrincipalId | AuthorityDigest => NamesLower1(f);
    case DecisionDigest | ActionDigest | ApprovalDigest | IdentityStatus | Requester | Actor => NamesLower2(f);
    case Responsible | IdentityEvidence | IdentitySnapshot | EffectClass | Attempt | Outcome => NamesLower3(f);
    case ResultDigest | StartedAt | FinishedAt | Partition | ChainSeq | PreviousHash => NamesLower4(f);
  }

  lemma NamesFoldDiffer(f: Field, g: Field)
    requires f != g
    ensures !SameName(NameOf(f), NameOf(g))
  {
    hide NameOf;
    NamesDiffer(f, g);
    NameIsLower(f);
    NameIsLower(g);
    NamesFoldApart(NameOf(f), NameOf(g));
  }

  // ---- Reading what was written ----

  /** The members are those of the receipt's fields, in some order. */
  ghost predicate Speaks(ms: seq<Member>, clock: Clock, r: Receipt, fields: seq<Field>) {
    && (forall m :: m in ms ==> exists f :: f in fields && m == MemberFor(clock, r, f))
    && (forall f :: f in fields ==> MemberFor(clock, r, f) in ms)
  }

  /** Some key is for the field. */
  ghost predicate Named(ms: seq<Member>, f: Field) { exists m :: m in ms && SameName(m.key, NameOf(f)) }

  /** Every member with the field's name carries the field's value. */
  ghost predicate Says(ms: seq<Member>, f: Field, value: Tree) {
    forall m :: m in ms && SameName(m.key, NameOf(f)) ==> m.value == value
  }

  lemma SpeaksSays(ms: seq<Member>, clock: Clock, r: Receipt, fields: seq<Field>, f: Field)
    requires Speaks(ms, clock, r, fields)
    ensures Says(ms, f, MemberFor(clock, r, f).value)
    ensures Named(ms, f) <==> f in fields
  {
    forall m | m in ms && SameName(m.key, NameOf(f)) ensures m.value == MemberFor(clock, r, f).value && f in fields {
      var g :| g in fields && m == MemberFor(clock, r, g);
      if f != g {
        NamesFoldDiffer(f, g);
      }
    }
    if f in fields {
      assert MemberFor(clock, r, f) in ms;
    }
  }

  lemma {:induction false} ReadTextSays(ms: seq<Member>, f: Field, text: string, soFar: string)
    requires Says(ms, f, StrTree(text))
    ensures ReadText(ms, NameOf(f), soFar) == Some(if Named(ms, f) then text else soFar)
  {
    if ms != [] {
      ReadTextSays(ms[1..], f, text, if SameName(ms[0].key, NameOf(f)) then text else soFar);
      assert ms[0] in ms;
      assert forall m :: m in ms <==> m == ms[0] || m in ms[1..];
    }
  }

  lemma {:induction false} ReadIntSays(ms: seq<Member>, f: Field, n: int, soFar: int)
    requires Says(ms, f, NumTree(IntText(n)))
    ensures ReadInt(ms, NameOf(f), soFar) == Some(if Named(ms, f) then n else soFar)
    ensures f == SchemaVersion ==> Some(SniffMembers(ms, soFar)) == ReadInt(ms, NameOf(f), soFar)
  {
    IntRoundTrip(n);
    if ms != [] {
      ReadIntSays(ms[1..], f, n, if SameName(ms[0].key, NameOf(f)) then n else soFar);
      assert ms[0] in ms;
      assert forall m :: m in ms <==> m == ms[0] || m in ms[1..];
    }
  }

  lemma MembersSpeak(clock: Clock, r: Receipt, fields: seq<Field>)
    ensures Speaks(MembersFor(clock, r, fields), clock, r, fields)
  {
    var ms := MembersFor(clock, r, fields);
    forall f | f in fields ensures MemberFor(clock, r, f) in ms {
      var i :| 0 <= i < |fields| && fields[i] == f;
      assert ms[i] in ms;
    }
  }

  /** Sorting the members loses none of them. */
  lemma NormSpeaks(ms: seq<Member>, clock: Clock, r: Receipt, fields: seq<Field>)
    requires Speaks(ms, clock, r, fields)
    ensures Speaks(NormMembers(ms), clock, r, fields)
  {
    var n := NormMembers(ms);
    NormMembersBinds(ms);
    forall m | m in n ensures exists f :: f in fields && m == MemberFor(clock, r, f) {
      SortedBinding(n, m);
      BindingMember(ms, m.key);
      var f :| f in fields && Member(m.key, Binding(ms, m.key)) == MemberFor(clock, r, f);
      assert m == MemberFor(clock, r, f);
    }
    forall f | f in fields ensures MemberFor(clock, r, f) in n {
      var m := MemberFor(clock, r, f);
      SpeaksSays(ms, clock, r, fields, f);
      HasKeyOfMember(ms, m);
      BindingMember(ms, m.key);
      BindingMember(n, m.key);
      assert m == Member(m.key, Binding(n, m.key));
    }
  }

  lemma HasKeyOfMember(ms: seq<Member>, m: Member)
    requires m in ms
    ensures HasKey(ms, m.key)
  {
    var i :| 0 <= i < |ms| && ms[i] == m;
    assert LastIndex(ms, m.key) >= i;
  }

  /** The members the canonical bytes spell. */
  function CanonicalMembers(clock: Clock, r: Receipt): seq<Member> {
    var ms := MembersFor(clock, r, Fields(EraOf(r)));
    if EraOf(r) == V1 then NormMembers(ms) else ms
  }

  lemma CanonicalMembersSpeak(clock: Clock, r: Receipt)
    ensures Speaks(CanonicalMembers(clock, r), clock, r, Fields(EraOf(r)))
    ensures MembersWellFormed(CanonicalMembers(clock, r))
    ensures CanonicalReceipt(clock, r) == Print(ObjTree(CanonicalMembers(clock, r)))
  {
    hide MembersFor, Speaks, Select, MembersWellFormed, Print, NormMembers, CanonicalParams;
    var fields := Fields(EraOf(r));
    var ms := MembersFor(clock, r, fields);
    MembersSpeak(clock, r, fields);
    FieldsWellFormed(clock, r, fields);
    NormSpeaks(ms, clock, r, fields);
    NormMembersWellFormed(ms);
    PrintedObject(ms);
  }

  /** Canonicalizing a printed object sorts its members. */
  lemma PrintedObject(ms: seq<Member>)
    requires MembersWellFormed(ms)
    ensures CanonicalParams(Print(ObjTree(ms))) == Print(ObjTree(NormMembers(ms)))
  {
    hide Print, Decode, NormMembers, MembersWellFormed;
    ObjectWellFormed(ms);
    DecodePrint(ObjTree(ms));
    assert Norm(ObjTree(ms)) == ObjTree(NormMembers(ms));
  }

  lemma ObjectWellFormed(ms: seq<Member>)
    requires MembersWellFormed(ms)
    ensures WellFormed(ObjTree(ms))
  { }

  lemma {:induction false} FieldsWellFormed(clock: Clock, r: Receipt, fields: seq<Field>)
    ensures MembersWellFormed(MembersFor(clock, r, fields))
  {
    if fields != [] {
      FieldsWellFormed(clock, r, fields[1..]);
      assert MembersFor(clock, r, fields)[1..] == MembersFor(clock, r, fields[1..]);
      if IsNumber(fields[0]) {
        IntTextIsNumber(FieldNumber(r, fields[0]));
      }
    }
  }

  lemma TimeRoundTrip(clock: Clock, t: int)
    requires Lawful(clock)
    ensures ParseTimeTerm(clock, TimeTerm(clock, t)) == Some(t)
  { }

  lemma EveryField(f: Field)
    ensures f in ALL_FIELDS
  { match f case _ => }

  /** The fields of the signable content: those of the era unchanged, the others empty. */
  lemma SignableField(clock: Clock, r: Receipt, f: Field)
    ensures IsNumber(f) ==>
              FieldNumber(Signable(r), f) == if InEra(EraOf(r), f) then FieldNumber(r, f) else 0
    ensures !IsNumber(f) ==>
              FieldText(clock, Signable(r), f) == if InEra(EraOf(r), f) then FieldText(clock, r, f) else ""
  {
    hide Signable;
    match EraOf(r)
    case V1 =>
      SignableNumbers(r, f);
      SignableFirst(clock, r, f);
    case V2 =>
      SignableNumbers(r, f);
      SignableSecond(clock, r, f);
    case V3 => SignableThird(r);
  }

  lemma SignableNumbers(r: Receipt, f: Field)
    ensures IsNumber(f) ==> FieldNumber(Signable(r), f) == if InEra(EraOf(r), f) then FieldNumber(r, f) else 0
  { }

  lemma SignableThird(r: Receipt)
    requires EraOf(r) == V3
    ensures Signable(r) == r.(receiptHash := "", signingKeyId := "", signature := "")
  { }

  lemma SignableFirst(clock: Clock, r: Receipt, f: Field)
    requires EraOf(r) == V1
    ensures !IsNumber(f) ==> FieldText(clock, Signable(r), f) == if InEra(V1, f) then FieldText(clock, r, f) else ""
  { }

  lemma SignableSecond(clock: Clock, r: Receipt, f: Field)
    requires EraOf(r) == V2
    ensures !IsNumber(f) ==> FieldText(clock, Signable(r), f) == if InEra(V2, f) then FieldText(clock, r, f) else ""
  { }

  /** The action, its digests and its outcome. */
  ghost predicate SaysAct(text: Field -> string, r: Receipt) {
    && text(ReceiptId) == r.receiptId && text(ActionId) == r.actionId && text(IntentDigest) == r.intentDigest
    && text(PrincipalId) == r.principalId && text(AuthorityDigest) == r.authorityDigest &&
       text(DecisionDigest) == r.decisionDigest
    && text(ActionDigest) == r.actionDigest && text(EffectClass) == r.effectClass && text(Outcome) == r.outcome
    && text(ResultDigest) == r.resultDigest
  }

  /** The approval, the identities and the place on the chain. */
  ghost predicate SaysParties(text: Field -> string, r: Receipt) {
    && text(ApprovalDigest) == r.approvalDigest && text(IdentityStatus) == r.identityStatus &&
       text(Requester) == r.requester
    && text(Actor) == r.actor && text(Responsible) == r.responsible &&
       text(IdentityEvidence) == r.identityEvidenceDigest
    && text(IdentitySnapshot) == r.identitySnapshotDigest && text(Partition) == r.partition &&
       text(PreviousHash) == r.previousReceiptHash
  }

  lemma TextsSayAct(clock: Clock, r: Receipt, text: Field -> string)
    requires forall f: Field :: !IsNumber(f) ==> text(f) == FieldText(clock, r, f)
    ensures SaysAct(text, r)
  { }

  lemma TextsSayParties(clock: Clock, r: Receipt, text: Field -> string)
    requires forall f: Field :: !IsNumber(f) ==> text(f) == FieldText(clock, r, f)
    ensures SaysParties(text, r)
  { }

  lemma ReceiptFromFields(clock: Clock, r: Receipt, text: Field -> string, number: Field -> int)
    requires r.receiptHash == r.signingKeyId == r.signature == ""
    requires forall f: Field :: IsNumber(f) ==> number(f) == FieldNumber(r, f)
    requires forall f: Field :: !IsNumber(f) ==> text(f) == FieldText(clock, r, f)
    ensures ReceiptFrom(text, number, r.startedAt, r.finishedAt) == r
  {
    hide FieldText;
    TextsSayAct(clock, r, text);
    TextsSayParties(clock, r, text);
  }

  /** What reading each field of the canonical members gives: the field of the signable content. */
  lemma ReadField(clock: Clock, r: Receipt, f: Field)
    ensures var ms, era := CanonicalMembers(clock, r), EraOf(r);
            && (IsNumber(f) ==> ReadInt(ms, NameOf(f), 0) == Some(FieldNumber(Signable(r), f)))
            && (!IsNumber(f) ==> ReadText(ms, NameOf(f), "") == Some(FieldText(clock, Signable(r), f)))
            && (!InEra(era, f) ==> if IsNumber(f) then FieldNumber(Signable(r), f) == 0
                                      else FieldText(clock, Signable(r), f) == "")
  {
    hide Signable, CanonicalMembers, CanonicalReceipt, MembersWellFormed, Speaks, Named, ReadText, ReadInt, FieldText,
         FieldNumber,
         NameOf, Print, Says, MembersFor;
    var ms, fields := CanonicalMembers(clock, r), Fields(EraOf(r));
    CanonicalMembersSpeak(clock, r);
    SpeaksSays(ms, clock, r, fields, f);
    SignableField(clock, r, f);
    EveryField(f);
    if IsNumber(f) {
      ReadIntSays(ms, f, FieldNumber(r, f), 0);
    } else {
      ReadTextSays(ms, f, FieldText(clock, r, f), "");
    }
  }

  lemma ReadFields(clock: Clock, r: Receipt)
    ensures var ms, era := CanonicalMembers(clock, r), EraOf(r);
            && TypesOk(ms, era)
            && (forall f: Field :: IsNumber(f) ==> IntOf(ms, era, f) == FieldNumber(Signable(r), f))
            && (forall f: Field :: !IsNumber(f) ==> TextOf(ms, era, f) == FieldText(clock, Signable(r), f))
  {
    forall f: Field ensures var ms, era := CanonicalMembers(clock, r), EraOf(r);
                            && (IsNumber(f) ==>
                                  IntOf(ms, era, f) == FieldNumber(Signable(r), f) && ReadInt(ms, NameOf(f), 0).Some?)
                            && (!IsNumber(f) ==>
                                  && TextOf(ms, era, f) == FieldText(clock, Signable(r), f)
                                  && ReadText(ms, NameOf(f), "").Some?) {
      ReadField(clock, r, f);
    }
  }

  lemma ReadTimes(clock: Clock, r: Receipt)
    ensures var ms, era := CanonicalMembers(clock, r), EraOf(r);
            && TextOf(ms, era, StartedAt) == TimeTerm(clock, r.startedAt)
            && TextOf(ms, era, FinishedAt) == TimeTerm(clock, r.finishedAt)
  {
    hide CanonicalMembers, ReadText, ReadInt;
    ReadFields(clock, r);
    SignableTimes(r);
  }

  /** Reading the members of a receipt back under its own era gives its signable content. */
  lemma FromWireRoundTrip(clock: Clock, r: Receipt)
    requires Lawful(clock)
    ensures FromWire(clock, CanonicalMembers(clock, r), EraOf(r)) == Ok(Signable(r))
  {
    hide Signable, CanonicalMembers, FieldText, ReadText, ReadInt;
    var ms, era := CanonicalMembers(clock, r), EraOf(r);
    ReadFields(clock, r);
    ReadTimes(clock, r);
    SignableTimes(r);
    TimeRoundTrip(clock, r.startedAt);
    TimeRoundTrip(clock, r.finishedAt);
    ReceiptFromFields(clock, Signable(r), f => TextOf(ms, era, f), f => IntOf(ms, era, f));
  }

  lemma SignableTimes(r: Receipt)
    ensures Signable(r).startedAt == r.startedAt && Signable(r).finishedAt == r.finishedAt
    ensures Signable(r).receiptHash == Signable(r).signingKeyId == Signable(r).signature == ""
    ensures EraOf(Signable(r)) == EraOf(r) && Signable(Signable(r)) == Signable(r)
  { }

  // ---- The canonical text, and what may follow it ----

  lemma {:induction false} LexSkip(tail: string)
    ensures Lex(tail) == Lex(SkipSpace(tail))
  {
    if tail != "" && IsSpace(tail[0]) {
      LexSkip(tail[1..]);
    }
  }

  function SkipSpace(s: string): string {
    if s != "" && IsSpace(s[0]) then SkipSpace(s[1..]) else s
  }

  /** dec.More is false exactly when what follows is blank or starts with a closing bracket or brace. */
  predicate Accepted(tail: string) {
    var t := SkipSpace(tail); t == "" || t[0] == ']' || t[0] == '}'
  }

  lemma NothingMoreExact(tail: string)
    ensures NothingMore(Lex(tail).tokens, Lex(tail).rest) <==> Accepted(tail)
    ensures Lex(tail) == Lexed([], "") <==> SkipSpace(tail) == ""
  {
    LexSkip(tail);
    SkipSpaceStops(tail);
    var t := SkipSpace(tail);
    if t != "" && LexOne(t).Got? {
      assert Lex(t).tokens[0] == LexOne(t).token;
    }
  }

  lemma {:induction false} SkipSpaceStops(s: string)
    ensures SkipSpace(s) == "" || !IsSpace(SkipSpace(s)[0])
  {
    if s != "" && IsSpace(s[0]) {
      SkipSpaceStops(s[1..]);
    }
  }

  /** An object's text, with anything behind it, lexes and parses as the object and the rest. */
  lemma ObjectThenTail(ms: seq<Member>, tail: string)
    requires MembersWellFormed(ms)
    ensures var l := Lex(Print(ObjTree(ms)) + tail);
            ParseValue(l.tokens) == Done(ObjTree(ms), Lex(tail).tokens) && l.rest == Lex(tail).rest
  {
    hide Tokens, Lex, ParseValue, SpacedText, MembersWellFormed, WellFormed;
    var t := ObjTree(ms);
    ObjectWellFormed(ms);
    LexPrinted(t, tail);
    ParseTokens(t, Lex(tail).tokens);
  }

  lemma LexPrinted(t: Tree, tail: string)
    requires WellFormed(t) && t.ObjTree?
    ensures Lex(Print(t) + tail) == Lexed(Tokens(t) + Lex(tail).tokens, Lex(tail).rest)
  {
    hide Lex, SpacedText, WellFormed;
    var ts := Tokens(t);
    TokensFit(t);
    assert ts[|ts| - 1] == RightBrace;
    LexSpacedPrefix(ts, NoGaps(|ts| + 1), tail);
  }

  lemma KnownKeys(clock: Clock, r: Receipt)
    ensures forall m :: m in CanonicalMembers(clock, r) ==> KnownKey(m.key, EraOf(r))
  {
    CanonicalMembersSpeak(clock, r);
    forall m | m in CanonicalMembers(clock, r) ensures KnownKey(m.key, EraOf(r)) {
      var f :| f in Fields(EraOf(r)) && m == MemberFor(clock, r, f);
      assert NameOf(f) == m.key;
    }
  }

  /** The strict parse of canonical bytes under their own era, whatever follows them. */
  lemma ParseOwnEra(clock: Clock, r: Receipt, tail: string)
    requires Lawful(clock)
    ensures ParseEra(clock, CanonicalReceipt(clock, r) + tail, EraOf(r)) ==
            if Accepted(tail) then Ok(Signable(r)) else Err(BadWire)
  {
    hide *;
    CanonicalMembersSpeak(clock, r);
    KnownKeys(clock, r);
    FromWireRoundTrip(clock, r);
    ParseKnown(clock, CanonicalMembers(clock, r), EraOf(r), tail);
  }

  /** The strict parse of an object with known fields, whatever follows it. */
  lemma ParseKnown(clock: Clock, ms: seq<Member>, era: Era, tail: string)
    requires MembersWellFormed(ms) && forall m :: m in ms ==> KnownKey(m.key, era)
    ensures ParseEra(clock, Print(ObjTree(ms)) + tail, era) ==
            if Accepted(tail) then FromWire(clock, ms, era) else Err(BadWire)
  {
    hide FromWire, ParseValue, Lex, KnownKey, Accepted, Print, MembersWellFormed, NothingMore;
    ObjectThenTail(ms, tail);
    NothingMoreExact(tail);
  }

  lemma VersionIsUnknownFirst()
    ensures !KnownKey(NameOf(SchemaVersion), V1)
  {
    forall f | InEra(V1, f) ensures !SameName(NameOf(f), NameOf(SchemaVersion)) {
      NamesFoldDiffer(f, SchemaVersion);
    }
  }

  lemma LaterEraNamesVersion(clock: Clock, r: Receipt)
    requires EraOf(r) != V1
    ensures MemberFor(clock, r, SchemaVersion) in CanonicalMembers(clock, r)
  {
    hide CanonicalMembers, CanonicalReceipt, MembersWellFormed, MemberFor;
    CanonicalMembersSpeak(clock, r);
    EveryField(SchemaVersion);
  }

  /** Bytes of a later era name the version, which era 1 does not know. */
  lemma LaterEraIsNotFirst(clock: Clock, r: Receipt, tail: string)
    requires EraOf(r) != V1
    ensures ParseEra(clock, CanonicalReceipt(clock, r) + tail, V1) == Err(BadWire)
  {
    hide CanonicalMembers, CanonicalReceipt, MembersWellFormed, Speaks, ParseValue, Lex, Print, KnownKey, FromWire,
         NothingMore, MemberFor;
    var ms := CanonicalMembers(clock, r);
    CanonicalMembersSpeak(clock, r);
    LaterEraNamesVersion(clock, r);
    VersionIsUnknownFirst();
    MemberName(clock, r, SchemaVersion);
    UnknownKeyRefused(clock, ms, MemberFor(clock, r, SchemaVersion), tail);
  }

  lemma MemberName(clock: Clock, r: Receipt, f: Field)
    ensures MemberFor(clock, r, f).key == NameOf(f)
  { }

  lemma UnknownKeyRefused(clock: Clock, ms: seq<Member>, m: Member, tail: string)
    requires MembersWellFormed(ms) && m in ms && !KnownKey(m.key, V1)
    ensures ParseEra(clock, Print(ObjTree(ms)) + tail, V1) == Err(BadWire)
  {
    hide MembersWellFormed, Print, KnownKey, ParseValue, Lex, FromWire, NothingMore;
    ObjectThenTail(ms, tail);
  }

  lemma SniffObject(ms: seq<Member>, tail: string)
    requires MembersWellFormed(ms)
    ensures Sniff(Print(ObjTree(ms)) + tail) == if SkipSpace(tail) == "" then SniffMembers(ms, 0) else 0
  {
    hide SniffMembers, Print, SkipSpace, MembersWellFormed;
    ObjectThenTail(ms, tail);
    NothingMoreExact(tail);
  }

  /** The sniffed version of canonical bytes: 0 in era 1, and 0 as soon as anything but blanks follows. */
  lemma SniffCanonical(clock: Clock, r: Receipt, tail: string)
    ensures Sniff(CanonicalReceipt(clock, r) + tail) ==
            if SkipSpace(tail) == "" && EraOf(r) != V1 then r.schemaVersion else 0
  {
    hide CanonicalMembers, CanonicalReceipt, SniffMembers, Speaks, Print, Sniff, SkipSpace, MembersWellFormed;
    CanonicalMembersSpeak(clock, r);
    SniffObject(CanonicalMembers(clock, r), tail);
    SniffedVersion(clock, r);
  }

  lemma SniffedVersion(clock: Clock, r: Receipt)
    ensures SniffMembers(CanonicalMembers(clock, r), 0) == if EraOf(r) == V1 then 0 else r.schemaVersion
  {
    hide Signable, FieldText, CanonicalMembers, SniffMembers, ReadInt, NameOf, Speaks, Select, NatText;
    var ms := CanonicalMembers(clock, r);
    CanonicalMembersSpeak(clock, r);
    EveryField(SchemaVersion);
    SpeaksSays(ms, clock, r, Fields(EraOf(r)), SchemaVersion);
    ReadIntSays(ms, SchemaVersion, r.schemaVersion, 0);
  }

  // ---- The main results ----

  /**
   The parser on canonical bytes and anything appended to them. Blanks are harmless. In era 1 a tail
   that starts with a closing bracket or brace is accepted too, although the text is then more than
   one JSON object; eras 2 and 3 refuse it, since their version no longer sniffs.
   */
  lemma ParseCanonicalWithTail(clock: Clock, r: Receipt, tail: string)
    requires Lawful(clock)
    ensures ParseCanonicalReceipt(clock, CanonicalReceipt(clock, r) + tail) ==
            if SkipSpace(tail) == "" then
              (if r.schemaVersion > 3 then Err(UnknownVersion(r.schemaVersion)) else Ok(Signable(r)))
            else if EraOf(r) == V1 && Accepted(tail) then Ok(Signable(r))
            else Err(BadWire)
  {
    hide Signable, ParseEra, CanonicalReceipt, Sniff;
    SniffCanonical(clock, r, tail);
    ParseOwnEra(clock, r, tail);
    if EraOf(r) != V1 {
      LaterEraIsNotFirst(clock, r, tail);
    }
  }

  /** Versions 0, 2 and 3 come back as their signable content, 1 as version 0, later ones are refused. */
  lemma RoundTrip(clock: Clock, r: Receipt)
    requires Lawful(clock)
    ensures ParseCanonicalReceipt(clock, CanonicalReceipt(clock, r)) ==
            if r.schemaVersion > 3 then Err(UnknownVersion(r.schemaVersion)) else Ok(Signable(r))
  {
    ParseCanonicalWithTail(clock, r, "");
    assert CanonicalReceipt(clock, r) + "" == CanonicalReceipt(clock, r);
  }

  /** Equal canonical bytes mean the same era and the same signable fields, whatever the versions. */
  lemma CanonicalInjective(clock: Clock, a: Receipt, b: Receipt)
    requires Lawful(clock)
    ensures CanonicalReceipt(clock, a) == CanonicalReceipt(clock, b) <==> Signable(a) == Signable(b)
  {
    hide Signable, CanonicalReceipt, Sniff, ParseEra;
    if CanonicalReceipt(clock, a) == CanonicalReceipt(clock, b) {
      BytesSayEra(clock, a);
      BytesSayEra(clock, b);
    } else if Signable(a) == Signable(b) {
      SameFieldsSameBytes(clock, a);
      SameFieldsSameBytes(clock, b);
    }
  }

  /** Canonical bytes determine the version they sniff to, the era, and what that era's parse gives. */
  lemma BytesSayEra(clock: Clock, r: Receipt)
    requires Lawful(clock)
    ensures Sniff(CanonicalReceipt(clock, r)) == if EraOf(r) == V1 then 0 else r.schemaVersion
    ensures ParseEra(clock, CanonicalReceipt(clock, r), EraOf(r)) == Ok(Signable(r))
  {
    hide Signable, CanonicalReceipt, Sniff, ParseEra;
    SniffCanonical(clock, r, "");
    ParseOwnEra(clock, r, "");
    assert CanonicalReceipt(clock, r) + "" == CanonicalReceipt(clock, r);
  }

  /** The bytes depend on the signable content alone. */
  lemma SameFieldsSameBytes(clock: Clock, r: Receipt)
    ensures CanonicalReceipt(clock, Signable(r)) == CanonicalReceipt(clock, r)
  {
    hide Signable, CanonicalParams, Print;
    SignableTimes(r);
    SameMembers(clock, r, Fields(EraOf(r)));
  }

  lemma SameMembers(clock: Clock, r: Receipt, fields: seq<Field>)
    requires forall f :: f in fields ==> InEra(EraOf(r), f)
    ensures MembersFor(clock, Signable(r), fields) == MembersFor(clock, r, fields)
  {
    hide Signable, FieldText, FieldNumber, NameOf, InEra;
    forall i | 0 <= i < |fields| ensures MemberFor(clock, Signable(r), fields[i]) == MemberFor(clock, r, fields[i]) {
      SignableField(clock, r, fields[i]);
      assert fields[i] in fields;
    }
  }

  lemma {:induction false} SniffIsRead(ms: seq<Member>, soFar: int)
    requires ReadInt(ms, NameOf(SchemaVersion), soFar).Some?
    ensures ReadInt(ms, NameOf(SchemaVersion), soFar) == Some(SniffMembers(ms, soFar))
  {
    if ms != [] {
      if !SameName(ms[0].key, NameOf(SchemaVersion)) || ms[0].value.NullTree? {
        SniffIsRead(ms[1..], soFar);
      } else {
        SniffIsRead(ms[1..], NumberIn(ms[0].value).value);
      }
    }
  }

  lemma NoIdentity(text: Field -> string, number: Field -> int, startedAt: int, finishedAt: int)
    requires forall f: Field :: IdentityField(f) ==> text(f) == ""
    ensures var r := ReceiptFrom(text, number, startedAt, finishedAt); r == WithoutIdentity(r)
  { }

  /** What the wire of an era can give: no seal, no field of a later era. */
  lemma FromWireShape(clock: Clock, ms: seq<Member>, era: Era)
    requires FromWire(clock, ms, era).Ok?
    ensures var r := FromWire(clock, ms, era).value;
            && r.receiptHash == r.signingKeyId == r.signature == ""
            && (era != V3 ==> r == WithoutIdentity(r))
            && (era == V1 ==> r.approvalDigest == "" && r.schemaVersion == 0)
            && (era != V1 ==> ReadInt(ms, NameOf(SchemaVersion), 0) == Some(r.schemaVersion))
  {
    hide ReadText, ReadInt, ParseTimeTerm, WithoutIdentity;
    var started := ParseTimeTerm(clock, TextOf(ms, era, StartedAt)).value;
    var finished := ParseTimeTerm(clock, TextOf(ms, era, FinishedAt)).value;
    var text := f => TextOf(ms, era, f);
    var number := f => IntOf(ms, era, f);
    assert FromWire(clock, ms, era).value == ReceiptFrom(text, number, started, finished);
    if era != V3 {
      NoIdentity(text, number, started, finished);
    }
    assert TypesOk(ms, era);
    assert era != V1 ==> InEra(era, SchemaVersion);
  }

  lemma ShapeIsSignable(r: Receipt)
    requires r.receiptHash == r.signingKeyId == r.signature == ""
    requires EraOf(r) != V3 ==> r == WithoutIdentity(r)
    requires EraOf(r) == V1 ==> r.approvalDigest == "" && r.schemaVersion == 0
    ensures Signable(r) == r
  { }

  /** A parsed receipt is unsealed, has nothing of a later era, and carries the version that was sniffed. */
  lemma ParsedIsSignable(clock: Clock, raw: string)
    requires ParseCanonicalReceipt(clock, raw).Ok?
    ensures var r := ParseCanonicalReceipt(clock, raw).value;
            r.schemaVersion == Sniff(raw) && r.schemaVersion <= 3 && Signable(r) == r
  {
    hide Signable, FromWire, WithoutIdentity, StrictMembers, Sniff, ReadInt, SniffMembers, NameOf;
    var v := Sniff(raw);
    var era := if v == 0 then V1 else if v == 2 then V2 else V3;
    var ms := StrictMembers(raw, era).value;
    FromWireShape(clock, ms, era);
    if v != 0 {
      SniffedFrom(raw, era);
      SniffIsRead(ms, 0);
    }
    ShapeIsSignable(ParseCanonicalReceipt(clock, raw).value);
  }

  /** A version that sniffs was sniffed from the members the strict parse reads. */
  lemma SniffedFrom(raw: string, era: Era)
    requires Sniff(raw) != 0 && StrictMembers(raw, era).Some?
    ensures Sniff(raw) == SniffMembers(StrictMembers(raw, era).value, 0)
  { hide Lex, ParseValue, KnownKey, SniffMembers; }

  /** Whatever parses is printed to bytes that parse to the same receipt: the canonical form is a fixed point. */
  lemma ParsedReparses(clock: Clock, raw: string)
    requires Lawful(clock) && ParseCanonicalReceipt(clock, raw).Ok?
    ensures var r := ParseCanonicalReceipt(clock, raw).value;
            ParseCanonicalReceipt(clock, CanonicalReceipt(clock, r)) == Ok(r)
  {
    ParsedIsSignable(clock, raw);
    RoundTrip(clock, ParseCanonicalReceipt(clock, raw).value);
  }

  /** An object's text and a stray brace are more than one JSON value. */
  lemma StrayBraceIsMore(ms: seq<Member>)
    requires MembersWellFormed(ms)
    ensures Decode(Print(ObjTree(ms)) + "}").None?
  {
    hide Print, MembersWellFormed, ParseValue, Tokens;
    ObjectThenTail(ms, "}");
    NothingMoreExact("}");
    BraceSkipsNothing();
  }

  lemma BraceSkipsNothing()
    ensures SkipSpace("}") == "}" && Accepted("}")
  { }

  /** The witness: a first-era receipt followed by a stray brace is more than one object, and parses. */
  lemma StrayBraceAccepted(clock: Clock, r: Receipt)
    requires Lawful(clock) && EraOf(r) == V1
    ensures Decode(CanonicalReceipt(clock, r) + "}").None?
    ensures ParseCanonicalReceipt(clock, CanonicalReceipt(clock, r) + "}") == Ok(Signable(r))
  {
    hide Signable, CanonicalReceipt, ParseCanonicalReceipt, CanonicalMembers, Print, Speaks, Decode, Accepted,
         SkipSpace, MembersWellFormed;
    ParseCanonicalWithTail(clock, r, "}");
    BraceSkipsNothing();
    CanonicalMembersSpeak(clock, r);
    StrayBraceIsMore(CanonicalMembers(clock, r));
  }

  // ---- One JSON object, or more, or none ----

  predicate OneObject(raw: string) { Decode(raw).Some? && Decode(raw).value.ObjTree? }

  /** The first character that is not a blank opens an object. */
  predicate OpensObject(raw: string) { var t := SkipSpace(raw); t != "" && t[0] == '{' }

  /** A closing bracket or brace stands behind the first value: where dec.More, unlike io.EOF, says no more. */
  predicate CloserBehind(raw: string) {
    match ParseValue(Lex(raw).tokens)
    case NoParse => false
    case Done(_, rest) => rest != [] && (rest[0] == RightBracket || rest[0] == RightBrace)
  }

  lemma OpensObjectIsBrace(raw: string)
    ensures OpensObject(raw) <==> Lex(raw).tokens != [] && Lex(raw).tokens[0] == LeftBrace
  {
    LexSkip(raw);
    SkipSpaceStops(raw);
    var t := SkipSpace(raw);
    if t != "" && LexOne(t).Got? {
      assert Lex(t).tokens[0] == LexOne(t).token;
    }
  }

  lemma FirstTokenIs(ts: seq<Token>)
    requires ParseValue(ts).Done?
    ensures ts != [] && (ParseValue(ts).value.ObjTree? <==> ts[0] == LeftBrace)
  { hide ParseItems, ParseMembers; }

  lemma StrictIs(raw: string, era: Era)
    requires StrictMembers(raw, era).Some?
    ensures var l := Lex(raw);
            match ParseValue(l.tokens)
            case NoParse => false
            case Done(tree, rest) => NothingMore(rest, l.rest) && (tree.NullTree? || tree.ObjTree?)
  { hide Lex, ParseValue, KnownKey; }

  /**
   Of all the texts the parser accepts, these are one JSON object: the ones that open an object and have no
   closing bracket or brace behind it. The others sniff as the first era; the one that opens no object is null.
   */
  lemma AcceptedIsOneObjectExactly(clock: Clock, raw: string)
    requires ParseCanonicalReceipt(clock, raw).Ok?
    ensures OneObject(raw) <==> OpensObject(raw) && !CloserBehind(raw)
    ensures !OneObject(raw) ==> Sniff(raw) == 0
    ensures ParseValue(Lex(raw).tokens).Done?
    ensures !OpensObject(raw) ==> ParseValue(Lex(raw).tokens).value.NullTree?
  {
    hide Lex, ParseValue, FromWire, OpensObject, StrictMembers, SniffMembers;
    var v := Sniff(raw);
    StrictIs(raw, if v == 0 then V1 else if v == 2 then V2 else V3);
    OpensObjectIsBrace(raw);
    FirstTokenIs(Lex(raw).tokens);
  }

  /** The witness without an object: null parses, as the empty receipt. */
  lemma NullAccepted(clock: Clock)
    ensures ParseCanonicalReceipt(clock, "null").Ok? && !OneObject("null")
  {
    var l := Lex("null");
    assert l == Lexed([Null], "") by {
      assert LexOne("null") == Got(Null, "null"[4..]);
      assert Lex("") == Lexed([], "");
    }
    assert ParseValue([Null]) == Done(NullTree, []);
    assert Decode("null") == Some(NullTree);
    assert StrictMembers("null", V1) == Some([]);
    assert TypesOk([], V1);
  }

  // ---- Hash and link ----

  /** ComputeReceiptHash under a hash from text to its hexadecimal digest. */
  function ComputeReceiptHash(hash: string -> string, clock: Clock, r: Receipt): string {
    "sha256:" + hash(CanonicalReceipt(clock, r))
  }

  /** LinkReceipt: `next` placed on the chain after `prev`. */
  function LinkReceipt(next: Receipt, prev: Receipt): Receipt {
    next.(partition := prev.partition, chainSeq := prev.chainSeq + 1, previousReceiptHash := prev.receiptHash)
  }

  ghost predicate InjectiveHash(hash: string -> string) { forall x, y :: hash(x) == hash(y) ==> x == y }

  /** Under an injective hash, equal receipt hashes mean equal signable content. */
  lemma HashDecidesSignable(hash: string -> string, clock: Clock, a: Receipt, b: Receipt)
    requires InjectiveHash(hash) && Lawful(clock)
    ensures ComputeReceiptHash(hash, clock, a) == ComputeReceiptHash(hash, clock, b) <==> Signable(a) == Signable(b)
  {
    hide Signable, CanonicalReceipt;
    CanonicalInjective(clock, a, b);
    var h1, h2 := hash(CanonicalReceipt(clock, a)), hash(CanonicalReceipt(clock, b));
    assert ("sha256:" + h1)[7..] == h1 && ("sha256:" + h2)[7..] == h2;
  }
}
