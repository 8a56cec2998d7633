/** Who is a bot, which Matrix identities a directory has, and which messages a room's owner
    receives. */
module SenderFilter {
  import opened Prelude

  predicate StartsWith(s: string, prefix: string) {
    prefix <= s
  }

  predicate EndsWith(s: string, suffix: string) {
    |suffix| <= |s| && s[|s| - |suffix|..] == suffix
  }

  predicate IsOpenCodeIdentity(mxid: string, domain: string) {
    EndsWith(mxid, ":" + domain) && (StartsWith(mxid, "@oc_") || StartsWith(mxid, "@opencode_"))
  }

  predicate IsKnownBotSender(mxid: string, bots: set<string>, domain: string) {
    IsOpenCodeIdentity(mxid, domain) || mxid in bots
  }

  /** One of the ids occurs in the body, in any case. */
  predicate BodyMentionsAny(body: string, mxids: seq<string>) {
    |mxids| > 0 && body != "" && exists k :: 0 <= k < |mxids| && Includes(Lower(body), Lower(mxids[k]))
  }

  predicate MentionUserIdsInclude(mentionUserIds: seq<string>, mxids: seq<string>) {
    exists k :: 0 <= k < |mentionUserIds| && LowerIn(mentionUserIds[k], mxids)
  }

  predicate LowerIn(id: string, mxids: seq<string>) {
    exists j :: 0 <= j < |mxids| && Lower(id) == Lower(mxids[j])
  }

  datatype Admission = Admit | OwnIdentity | BotWithoutMention

  /** Whether the owner of a room receives a message, and why not. */
  function IsAdmissibleForRoomDelivery(sender: string, body: string, mentionUserIds: seq<string>, owners: seq<string>,
          bots: set<string>, domain: string): Admission {
    if sender in owners then OwnIdentity
    else if IsKnownBotSender(sender, bots, domain) then
      if MentionUserIdsInclude(mentionUserIds, owners) || BodyMentionsAny(body, owners) then Admit
        else BotWithoutMention
    else Admit
  }

  // ---------------------------------------------------------------------------------------
  // The identities of a directory.

  /** `split("/")`. */
  function Split(s: string): (parts: seq<string>)
    ensures |parts| > 0
  {
    if s == [] then [""]
    else
      var p, c := Split(s[..|s| - 1]), s[|s| - 1];
      if c == '/' then p + [""] else p[..|p| - 1] + [p[|p| - 1] + [c]]
  }

  /** The last non-empty part. */
  function LastName(parts: seq<string>): (name: string)
    ensures name == "" || name in parts
    ensures name == "" ==> forall k :: 0 <= k < |parts| ==> parts[k] == ""
  {
    if parts == [] then ""
    else if parts[|parts| - 1] != "" then parts[|parts| - 1]
    else LastName(parts[..|parts| - 1])
  }

  function DirectoryName(directory: string): string {
    var name := LastName(Split(directory));
    if name == "" then "default" else name
  }

  predicate Plain(c: char) {
    'a' <= c <= 'z' || '0' <= c <= '9'
  }

  /** `replace(/[^a-z0-9]/g, "_")`. */
  function Sanitized(s: string): (r: string)
    ensures |r| == |s| && forall k :: 0 <= k < |s| ==> r[k] == if Plain(s[k]) then s[k] else '_'
  {
    if s == [] then [] else Sanitized(s[..|s| - 1]) + [if Plain(s[|s| - 1]) then s[|s| - 1] else '_']
  }

  function Name(directory: string): string {
    Sanitized(Lower(DirectoryName(directory)))
  }

  function Mxid(name: string, domain: string): string {
    "@oc_" + name + ":" + domain
  }

  function DeriveMatrixIdentities(directory: string, domain: string): (ids: seq<string>)
    ensures |ids| == 2
  {
    [Mxid(Name(directory), domain), Mxid(Name(directory) + "_v2", domain)]
  }

  lemma MxidInjective(a: string, b: string, domain: string)
    ensures Mxid(a, domain) == Mxid(b, domain) <==> a == b
  {
    var x, y := Mxid(a, domain), Mxid(b, domain);
    if x == y {
      assert |a| == |b|;
      assert a == x[4..4 + |a|] == y[4..4 + |b|] == b;
    }
  }

  /** An identity of a directory under one domain is one of its identities under another only if
      the domains are the same. */
  lemma DomainDerives(directory: string, former: string, domain: string)
    ensures Mxid(Name(directory), former) in DeriveMatrixIdentities(directory, domain) <==> former == domain
  {
    var name := Name(directory);
    var x, y, z := Mxid(name, former), Mxid(name, domain), Mxid(name + "_v2", domain);
    assert x[4 + |name|] == ':' && z[4 + |name|] == '_';
    if x == y {
      assert former == x[5 + |name|..] == y[5 + |name|..] == domain;
    }
  }

  lemma MxidIsOpenCode(name: string, domain: string)
    ensures IsOpenCodeIdentity(Mxid(name, domain), domain)
  {
    var x := Mxid(name, domain);
    assert x == ("@oc_" + name) + (":" + domain);
    assert x[..4] == "@oc_";
  }

  /** Every identity of a directory is recognised as one. */
  lemma DerivedAreBots(directory: string, domain: string, k: nat)
    requires k < 2
    ensures IsOpenCodeIdentity(DeriveMatrixIdentities(directory, domain)[k], domain)
  {
    MxidIsOpenCode(Name(directory), domain);
    MxidIsOpenCode(Name(directory) + "_v2", domain);
  }

  /** Two directories have an identity in common exactly if their names are the same or differ by
      one trailing `_v2`. */
  lemma SharedIdentityIff(d: string, e: string, domain: string)
    ensures (exists id :: id in DeriveMatrixIdentities(d, domain) && id in DeriveMatrixIdentities(e, domain)) <==>
            Name(d) == Name(e) || Name(d) == Name(e) + "_v2" || Name(e) == Name(d) + "_v2"
  {
    hide Mxid, Name;
    var a, b := Name(d), Name(e);
    var ds, es := DeriveMatrixIdentities(d, domain), DeriveMatrixIdentities(e, domain);
    MxidInjective(a, b, domain);
    MxidInjective(a, b + "_v2", domain);
    MxidInjective(a + "_v2", b, domain);
    MxidInjective(a + "_v2", b + "_v2", domain);
    SuffixInjective(a, b, "_v2");
    assert forall id :: id in ds <==> id == ds[0] || id == ds[1];
    assert forall id :: id in es <==> id == es[0] || id == es[1];
    assert a == b || a == b + "_v2" ==> ds[0] in ds && ds[0] in es;
    assert b == a + "_v2" ==> ds[1] in ds && ds[1] in es;
    assert a + "_v2" == b + "_v2" ==> ds[1] in ds && ds[1] in es;
  }

  lemma SuffixInjective(a: string, b: string, suffix: string)
    ensures a + suffix == b + suffix <==> a == b
  {
    if a + suffix == b + suffix {
      assert |a| == |b| && (a + suffix)[..|a|] == a && (b + suffix)[..|b|] == b;
    }
  }

  /** Between two sessions there is no echo: a directory's own identities are never admitted to
      its room, and those of any other directory only when they mention one of its own. */
  lemma SessionsMustMention(owner: string, other: string, k: nat, body: string, mentionUserIds: seq<string>,
          bots: set<string>, domain: string)
    requires k < 2
    ensures var owners, sender := DeriveMatrixIdentities(owner, domain), DeriveMatrixIdentities(other, domain)[k];
            IsAdmissibleForRoomDelivery(sender, body, mentionUserIds, owners, bots, domain) == Admit <==>
            && sender !in owners
            && (MentionUserIdsInclude(mentionUserIds, owners) || BodyMentionsAny(body, owners))
  {
    hide MentionUserIdsInclude, BodyMentionsAny, IsOpenCodeIdentity;
    DerivedAreBots(other, domain, k);
  }

  lemma LowerAppend(a: string, b: string)
    ensures Lower(a + b) == Lower(a) + Lower(b)
  {
    assert forall k :: 0 <= k < |a + b| ==> (a + b)[k] == if k < |a| then a[k] else b[k - |a|];
  }

  /** An identity is mentioned wherever it stands in the body and in whatever case it is
      written. */
  lemma MentionedInAnyCase(before: string, written: string, after: string, mxids: seq<string>, k: nat)
    requires k < |mxids| && Lower(written) == Lower(mxids[k]) && written != ""
    ensures BodyMentionsAny(before + written + after, mxids)
  {
    var body := before + written + after;
    LowerAppend(before, written);
    LowerAppend(before + written, after);
    var l := Lower(body);
    assert l[|before|..|before| + |written|] == Lower(written);
    assert OccursAt(l, Lower(mxids[k]), |before|);
  }

  /** Identities are written in lower case, so that they are found literally. */
  lemma DerivedAreLower(directory: string, domain: string, k: nat)
    requires k < 2 && forall j :: 0 <= j < |domain| ==> LowerChar(domain[j]) == domain[j]
    ensures Lower(DeriveMatrixIdentities(directory, domain)[k]) == DeriveMatrixIdentities(directory, domain)[k]
  {
    hide Name, Lower, Mxid, LowerChar;
    LowerFixed(domain);
    var name := Name(directory);
    NameLower(directory);
    MxidLower(name, domain);
    SecondNameLower(name);
    MxidLower(name + "_v2", domain);
  }

  lemma SecondNameLower(name: string)
    requires Lower(name) == name
    ensures Lower(name + "_v2") == name + "_v2"
  {
    LowerAppend(name, "_v2");
    LowerFixed("_v2");
  }

  lemma NameLower(directory: string)
    ensures Lower(Name(directory)) == Name(directory)
  {
    LowerFixed(Name(directory));
  }

  lemma LowerFixed(s: string)
    requires forall k :: 0 <= k < |s| ==> LowerChar(s[k]) == s[k]
    ensures Lower(s) == s
  {
  }

  lemma MxidLower(name: string, domain: string)
    requires Lower(name) == name && Lower(domain) == domain
    ensures Lower(Mxid(name, domain)) == Mxid(name, domain)
  {
    LowerAppend("@oc_", name);
    LowerAppend("@oc_" + name, ":");
    LowerAppend("@oc_" + name + ":", domain);
    LowerFixed("@oc_");
    LowerFixed(":");
  }
}
