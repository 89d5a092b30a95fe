/** The conditional-write canary: it qualifies a store on fresh probe keys and chooses how
    `If-Match` carries an ETag before ownership is acquired. Here every request is answered. */
module Canary {
  import opened Wrappers

  datatype ETagForm = AsReturned | Unquoted

  const Quote: char := '"'

  predicate Contains(s: string, c: char) {
    exists i :: 0 <= i < |s| && s[i] == c
  }

  function Strip(tag: string): string {
    if |tag| >= 2 && tag[0] == Quote && tag[|tag| - 1] == Quote then tag[1..|tag| - 1] else tag
  }

  /** The ETag rendered for an `If-Match` header, or None when the form cannot carry it. */
  function Render(form: ETagForm, tag: string): Option<string> {
    match form
    case AsReturned => Some(tag)
    case Unquoted => if Strip(tag) != [] && !Contains(Strip(tag), Quote) then Some(Strip(tag)) else None
  }

  predicate Usable(tag: string) {
    && 0 < |tag| <= 1024
    && forall i :: 0 <= i < |tag| ==> '!' <= tag[i] <= '~' && tag[i] != '*' && tag[i] != ','
  }

  /** A usable tag has 1 to 1024 visible characters and can be read neither as a wildcard nor as a list. */
  lemma UsableIff(tag: string)
    ensures Usable(tag) <==> && tag != [] && |tag| < 1025
                             && !Contains(tag, '*') && !Contains(tag, ',')
                             && forall c :: c in tag ==> 0x20 < c as int < 0x7F
  {
    if Usable(tag) {
      forall c | c in tag ensures 0x20 < c as int < 0x7F { var i :| 0 <= i < |tag| && tag[i] == c; }
    }
    if tag != [] && |tag| < 1025 && !Contains(tag, '*') && !Contains(tag, ',') && forall c :: c in tag ==> 0x20 < c as int < 0x7F {
      forall i | 0 <= i < |tag| ensures '!' <= tag[i] <= '~' && tag[i] != '*' && tag[i] != ',' { assert tag[i] in tag; }
    }
  }

  /** The quoted form of section 8.8.3 of RFC 9110. */
  ghost predicate Quoted(tag: string) {
    |tag| >= 3 && tag[0] == Quote && tag[|tag| - 1] == Quote && !Contains(tag[1..|tag| - 1], Quote)
  }

  /** Unquoting loses nothing: the form is injective on quoted tags and always changes them. */
  lemma RenderQuoted(a: string, b: string)
    requires Quoted(a) && Quoted(b)
    ensures Render(Unquoted, a) == Some(a[1..|a| - 1]) && Render(Unquoted, a) != Some(a)
    ensures Render(Unquoted, a) == Render(Unquoted, b) ==> a == b
  {
    assert a == [Quote] + a[1..|a| - 1] + [Quote] && b == [Quote] + b[1..|b| - 1] + [Quote];
    assert |a[1..|a| - 1]| < |a|;
  }

  function TrimLeft(s: string): string {
    if s != [] && s[0] == Quote then TrimLeft(s[1..]) else s
  }

  function TrimRight(s: string): string {
    if s != [] && s[|s| - 1] == Quote then TrimRight(s[..|s| - 1]) else s
  }

  function TrimQuotes(s: string): string {
    TrimRight(TrimLeft(s))
  }

  lemma TrimQuoted(tag: string)
    requires Quoted(tag)
    ensures TrimQuotes(tag) == tag[1..|tag| - 1]
  {
    var inner := tag[1..|tag| - 1];
    assert inner[0] != Quote && inner[|inner| - 1] != Quote;
    assert TrimRight(inner) == inner;
    var rest := inner + [Quote];
    assert tag[1..] == rest && rest[0] == inner[0];
    assert TrimLeft(rest) == rest && TrimLeft(tag) == rest;
    assert TrimRight(rest) == TrimRight(inner) by { assert (inner + [Quote])[..|inner|] == inner; }
  }

  lemma TrimBare(tag: string)
    requires tag != [] && !Contains(tag, Quote)
    ensures TrimQuotes(tag) == tag
  {
    assert tag[0] != Quote && tag[|tag| - 1] != Quote;
  }

  /** Rendering, in either form, loses nothing but surrounding quotes. */
  lemma RenderKeepsTag(form: ETagForm, tag: string)
    requires Render(form, tag).Some?
    ensures TrimQuotes(Render(form, tag).value) == TrimQuotes(tag)
  {
    if form == Unquoted {
      TrimBare(Strip(tag));
      if Strip(tag) != tag { TrimQuoted(tag); }
    }
  }

  /** What a provider reports for an object: an ETag, a version ID, or both. */
  datatype Version = Version(etag: Option<string>, id: Option<string>)

  /** The version a compare-and-swap sends, or None when the form cannot carry its ETag. */
  function Precondition(form: ETagForm, v: Version): Option<Version> {
    match v.etag
    case None => Some(v)
    case Some(tag) => if Render(form, tag).Some? then Some(v.(etag := Render(form, tag))) else None
  }

  function Bare(etag: Option<string>): Option<string> {
    if etag.Some? then Some(TrimQuotes(etag.value)) else None
  }

  /** How a readback recognises the version that a compare-and-swap names. */
  predicate SameVersion(sent: Version, observed: Version) {
    Bare(sent.etag) == Bare(observed.etag) && (sent.id.None? || observed.id == sent.id)
  }

  ghost predicate QuotedTag(v: Version) {
    v.etag.Some? ==> Quoted(v.etag.value)
  }

  /** A readback compares the unquoted tags whatever form was sent; so it recognises the expected
      version always, and with quoted tags it takes no other ETag and no other version ID for it. */
  lemma SameVersionIsEquality(form: ETagForm, expected: Version, observed: Version)
    requires Precondition(form, expected).Some?
    ensures var sent := Precondition(form, expected).value;
            && (SameVersion(sent, observed) <==> SameVersion(expected, observed))
            && SameVersion(sent, expected)
            && (QuotedTag(expected) && QuotedTag(observed) ==>
                  (SameVersion(sent, observed) <==> observed.etag == expected.etag && (expected.id.None? || observed.id == expected.id)))
  {
    if expected.etag.Some? { RenderKeepsTag(form, expected.etag.value); }
    if expected.etag.Some? && observed.etag.Some? && Quoted(expected.etag.value) && Quoted(observed.etag.value) {
      TrimQuoted(expected.etag.value);
      TrimQuoted(observed.etag.value);
      RenderQuoted(expected.etag.value, observed.etag.value);
    }
  }

  /** Every quoted version can be sent, in either form. */
  lemma QuotedIsCarried(form: ETagForm, v: Version)
    requires QuotedTag(v)
    ensures Precondition(form, v).Some?
  {
    if v.etag.Some? { RenderQuoted(v.etag.value, v.etag.value); }
  }

  // ------------------------------------------------- stores

  const First := "{\"probe\":1}"
  const Second := "{\"probe\":2}"

  /** How a store tags contents and judges conditions: whether Create takes effect on a present or
      absent key, and whether an `If-Match` header matches a stored tag on PUT and on GET. What it
      answers to a PUT need not be what it does. */
  datatype Policy = Policy(tag: string -> string, create: bool -> bool,
                           matchPut: (string, string) -> bool, matchGet: (string, string) -> bool,
                           answerCreate: bool -> bool, answerPut: (string, string) -> bool)

  /** The two probe contents have different, quoted, usable tags. */
  ghost predicate FaithfulTags(p: Policy) {
    && Quoted(p.tag(First)) && Usable(p.tag(First))
    && Quoted(p.tag(Second)) && Usable(p.tag(Second))
    && p.tag(First) != p.tag(Second)
  }

  /** Create takes effect exactly on an absent key, and a second one is refused. */
  ghost predicate CreatesIfAbsent(p: Policy) {
    p.create(false) && !p.create(true) && !p.answerCreate(true)
  }

  /** A compare-and-swap is answered as it is carried out. */
  ghost predicate AnswersTruly(p: Policy) {
    forall t, h :: p.answerPut(t, h) <==> p.matchPut(t, h)
  }

  /** Section 13.1.1 of RFC 9110: `If-Match` holds exactly for the stored tag. */
  ghost predicate FollowsRfc9110(p: Policy) {
    && FaithfulTags(p) && CreatesIfAbsent(p) && AnswersTruly(p)
    && (forall t, h :: p.matchPut(t, h) <==> t == h)
    && (forall t, h :: p.matchGet(t, h) <==> t == h)
  }

  /** `If-Match` is compared with the stored tag without its quotes. */
  ghost predicate ComparesBareTag(p: Policy) {
    && FaithfulTags(p) && CreatesIfAbsent(p) && AnswersTruly(p)
    && (forall t, h :: p.matchPut(t, h) <==> Strip(t) == h)
    && (forall t, h :: p.matchGet(t, h) <==> Strip(t) == h)
  }

  ghost predicate IgnoresAPrecondition(p: Policy) {
    p.create(true) || forall t, h :: p.matchPut(t, h)
  }

  datatype Mode = Create | Update(header: string)
  datatype PutReply = Written(tag: string) | AlreadyExists | Refused
  datatype GetReply = Found(content: string, tag: string) | NotFound | Mismatch

  class Bucket {
    const policy: Policy
    var objects: map<string, string>
    /** Every key that was ever written or deleted. */
    ghost var written: set<string>

    constructor (policy: Policy, objects: map<string, string>)
      ensures this.policy == policy && this.objects == objects && written == {}
    {
      this.policy := policy;
      this.objects := objects;
      written := {};
    }

    ghost predicate Applies(key: string, mode: Mode)
      reads this
    {
      if mode.Create? then policy.create(key in objects)
      else key in objects && policy.matchPut(policy.tag(objects[key]), mode.header)
    }

    ghost predicate Answers(key: string, mode: Mode)
      reads this
    {
      if mode.Create? then policy.answerCreate(key in objects)
      else key in objects && policy.answerPut(policy.tag(objects[key]), mode.header)
    }

    method Put(key: string, content: string, mode: Mode) returns (reply: PutReply)
      modifies this
      ensures reply == if old(Answers(key, mode)) then Written(policy.tag(content)) else if mode.Create? then AlreadyExists else Refused
      ensures objects == if old(Applies(key, mode)) then old(objects)[key := content] else old(objects)
      ensures written == old(written) + {key}
    {
      written := written + {key};
      var answered, applied := policy.answerCreate(key in objects), policy.create(key in objects);
      if mode.Update? {
        answered := key in objects && policy.answerPut(policy.tag(objects[key]), mode.header);
        applied := key in objects && policy.matchPut(policy.tag(objects[key]), mode.header);
      }
      if applied { objects := objects[key := content]; }
      reply := if answered then Written(policy.tag(content)) else if mode.Create? then AlreadyExists else Refused;
    }

    method Get(key: string, header: Option<string>) returns (reply: GetReply)
      ensures reply == if key !in objects then NotFound
                       else if header.Some? && !policy.matchGet(policy.tag(objects[key]), header.value) then Mismatch
                       else Found(objects[key], policy.tag(objects[key]))
    {
      if key !in objects { return NotFound; }
      var tag := policy.tag(objects[key]);
      if header.Some? && !policy.matchGet(tag, header.value) { return Mismatch; }
      reply := Found(objects[key], tag);
    }

    method Delete(key: string)
      modifies this
      ensures objects == old(objects) - {key} && written == old(written) + {key}
    {
      written := written + {key};
      objects := objects - {key};
    }

    /** The key still holds exactly this content and a usable tag. */
    method Unchanged(key: string, content: string) returns (same: bool)
      ensures same <==> key in objects && objects[key] == content && Usable(policy.tag(content))
    {
      var reply := Get(key, None);
      same := reply.Found? && reply.content == content && Usable(reply.tag);
    }
  }

  // ------------------------------------------------- the canary

  datatype Probe = Passed | CorrectVersionRefused(quoted: bool) | Unproven

  /** A compare-and-swap with this header on this content is refused, and has no effect. */
  ghost predicate Refuses(p: Policy, content: string, header: string) {
    !p.matchPut(p.tag(content), header) && !p.answerPut(p.tag(content), header)
  }

  /** Create-if-absent is honoured and a wrong version is refused. */
  ghost predicate RefusesWrong(p: Policy, form: ETagForm, wrong: string) {
    && CreatesIfAbsent(p) && Usable(p.tag(First))
    && Render(form, wrong).Some? && Refuses(p, First, Render(form, wrong).value)
  }

  /** The store takes the correct version, on GET and on PUT. */
  ghost predicate TakesCorrect(p: Policy, form: ETagForm) {
    var right := Render(form, p.tag(First));
    && right.Some? && p.matchGet(p.tag(First), right.value)
    && p.matchPut(p.tag(First), right.value) && p.answerPut(p.tag(First), right.value)
  }

  /** After the replacement the tag is new, usable and no longer matched by the old one. */
  ghost predicate RefusesStale(p: Policy, form: ETagForm) {
    && Usable(p.tag(Second)) && p.tag(Second) != p.tag(First)
    && Render(form, p.tag(First)).Some? && Refuses(p, Second, Render(form, p.tag(First)).value)
  }

  /** What a store must do at the probe for a form to qualify: no more and no less. */
  ghost predicate Qualifies(p: Policy, form: ETagForm, wrong: string) {
    RefusesWrong(p, form, wrong) && TakesCorrect(p, form) && RefusesStale(p, form)
  }

  /** The store refuses the correct version although the form carries it. */
  ghost predicate RefusesCorrect(p: Policy, form: ETagForm, wrong: string) {
    RefusesWrong(p, form, wrong) && DeniesCorrect(p, form)
  }

  ghost predicate DeniesCorrect(p: Policy, form: ETagForm) {
    var right := Render(form, p.tag(First));
    right.Some? && (!p.matchGet(p.tag(First), right.value) || Refuses(p, First, right.value))
  }

  ghost predicate TagIsQuoted(p: Policy) {
    Render(Unquoted, p.tag(First)) != Some(p.tag(First))
  }

  // ------------------------------------------------- which stores qualify

  /** A store that follows RFC 9110 qualifies as returned. */
  lemma Rfc9110Qualifies(p: Policy, wrong: string)
    requires FollowsRfc9110(p) && wrong != p.tag(First)
    ensures Qualifies(p, AsReturned, wrong)
  {
  }

  /** A store that compares the bare tag refuses the quoted version and qualifies without quotes. */
  lemma BareTagQualifies(p: Policy, wrong: string)
    requires ComparesBareTag(p) && Quoted(wrong) && wrong != p.tag(First)
    ensures RefusesCorrect(p, AsReturned, wrong) && TagIsQuoted(p) && Qualifies(p, Unquoted, wrong)
  {
    RenderQuoted(wrong, p.tag(First));
    RenderQuoted(p.tag(First), wrong);
    RenderQuoted(p.tag(Second), p.tag(First));
  }

  /** A store that ignores a precondition qualifies in no form, nor does it ask for another one. */
  lemma IgnoringNeverQualifies(p: Policy, form: ETagForm, wrong: string)
    requires IgnoresAPrecondition(p)
    ensures !RefusesWrong(p, form, wrong) && !Qualifies(p, form, wrong)
  {
  }

  function ProbeTag(content: string): string {
    if content == First then "\"1\"" else "\"2\""
  }

  /** There are stores of both kinds. */
  lemma BothKindsExist()
    ensures FollowsRfc9110(Policy(ProbeTag, present => !present, (t, h) => t == h, (t, h) => t == h, present => !present, (t, h) => t == h))
    ensures ComparesBareTag(Policy(ProbeTag, present => !present, (t, h) => Strip(t) == h, (t, h) => Strip(t) == h,
                                   present => !present, (t, h) => Strip(t) == h))
  {
    var one, two := ProbeTag(First), ProbeTag(Second);
    assert First[9] != Second[9];
    assert one[1..2] == "1" && two[1..2] == "2";
    assert Quoted(one) && Quoted(two) && one[1] != two[1];
  }

  // ------------------------------------------------- the run

  /** Steps 1 to 3: create, then a duplicate create and a wrong version are refused. */
  method Negatives(b: Bucket, key: string, form: ETagForm, wrong: string) returns (ok: bool)
    requires key !in b.objects && Quoted(wrong)
    modifies b
    ensures b.objects - {key} == old(b.objects) && b.written == old(b.written) + {key}
    ensures ok ==> key in b.objects && b.objects[key] == First
    ensures ok <==> RefusesWrong(b.policy, form, wrong)
  {
    RenderQuoted(wrong, wrong);
    var reply := b.Put(key, First, Create);
    ok := b.Unchanged(key, First);
    if !ok { return; }
    reply := b.Put(key, Second, Create);
    if !reply.AlreadyExists? { return false; }
    ok := b.Unchanged(key, First);
    if !ok { return; }
    reply := b.Put(key, Second, Update(Render(form, wrong).value));
    if !reply.Refused? { return false; }
    ok := b.Unchanged(key, First);
  }

  /** Steps 4 to 6: the correct version is served and replaced, and is stale afterwards. */
  method Positives(b: Bucket, key: string, form: ETagForm) returns (r: Probe)
    requires key in b.objects && b.objects[key] == First && Usable(b.policy.tag(First))
    modifies b
    ensures b.objects - {key} == old(b.objects) - {key}
    ensures old(b.written) <= b.written <= old(b.written) + {key}
    ensures r == Passed <==> TakesCorrect(b.policy, form) && RefusesStale(b.policy, form)
    ensures r.CorrectVersionRefused? <==> DeniesCorrect(b.policy, form)
    ensures r.CorrectVersionRefused? ==> (r.quoted <==> TagIsQuoted(b.policy))
  {
    var tag := b.policy.tag(First);
    var refused := CorrectVersionRefused(Render(Unquoted, tag) != Some(tag));
    var header := Render(form, tag);
    if header.None? { return Unproven; }
    var pinned := b.Get(key, header);
    if pinned.Mismatch? {
      var same := b.Unchanged(key, First);
      return if same then refused else Unproven;
    }
    if pinned != Found(First, tag) { return Unproven; }
    var reply := b.Put(key, Second, Update(header.value));
    if reply.Refused? {
      var same := b.Unchanged(key, First);
      return if same then refused else Unproven;
    }
    var now := b.Get(key, None);
    if !now.Found? || now.content != Second || !Usable(now.tag) || now.tag == tag { return Unproven; }
    reply := b.Put(key, First, Update(header.value));
    if !reply.Refused? { return Unproven; }
    var same := b.Unchanged(key, Second);
    r := if same then Passed else Unproven;
  }

  /** One run on a fresh key, which is deleted again. */
  method RunCanary(b: Bucket, key: string, form: ETagForm, wrong: string) returns (r: Probe)
    requires key !in b.objects && Quoted(wrong)
    modifies b
    ensures b.objects == old(b.objects) && b.written == old(b.written) + {key}
    ensures r == Passed <==> Qualifies(b.policy, form, wrong)
    ensures r.CorrectVersionRefused? <==> RefusesCorrect(b.policy, form, wrong)
    ensures r.CorrectVersionRefused? ==> (r.quoted <==> TagIsQuoted(b.policy))
  {
    var ok := Negatives(b, key, form, wrong);
    r := Unproven;
    if ok { r := Positives(b, key, form); }
    b.Delete(key);
  }

  /** Qualify the store. Only the two probe keys are ever touched, and nothing is left behind. */
  method QualifyConditions(b: Bucket, key: string, other: string, wrong: string) returns (form: Option<ETagForm>)
    requires key !in b.objects && other !in b.objects
    requires Quoted(wrong) && b.policy.tag(First) != wrong
    modifies b
    ensures b.objects == old(b.objects) && b.written <= old(b.written) + {key, other}
    // The three kinds of store.
    ensures FollowsRfc9110(b.policy) ==> form == Some(AsReturned)
    ensures ComparesBareTag(b.policy) ==> form == Some(Unquoted)
    ensures IgnoresAPrecondition(b.policy) ==> form == None
    // Any other store: exactly what it must show at the probe.
    ensures form == Some(AsReturned) <==> Qualifies(b.policy, AsReturned, wrong)
    ensures form == Some(Unquoted) <==> && RefusesCorrect(b.policy, AsReturned, wrong) && TagIsQuoted(b.policy)
                                        && Qualifies(b.policy, Unquoted, wrong)
  {
    if FollowsRfc9110(b.policy) { Rfc9110Qualifies(b.policy, wrong); }
    if ComparesBareTag(b.policy) { BareTagQualifies(b.policy, wrong); }
    if IgnoresAPrecondition(b.policy) {
      IgnoringNeverQualifies(b.policy, AsReturned, wrong);
      IgnoringNeverQualifies(b.policy, Unquoted, wrong);
    }
    var r := RunCanary(b, key, AsReturned, wrong);
    if r == Passed { return Some(AsReturned); }
    if r != CorrectVersionRefused(true) { return None; }
    r := RunCanary(b, other, Unquoted, wrong);
    form := if r == Passed then Some(Unquoted) else None;
  }
}
