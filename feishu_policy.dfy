/**
 * The Feishu channel's access and reply decisions (`extensions/feishu/src/policy.ts`):
 * the fallback sender allowlist, the exact-then-case-insensitive group lookup,
 * the group tool policy, the group allow policy and the mention requirement.
 *
 * The plugin SDK's own matcher, when it exists, is a foreign function and is a
 * parameter here. A configuration's `groups` object is the list of its entries
 * in `Object.keys` order.
 */
module FeishuPolicy {
  import opened Wrappers
  import opened Js

  /** An `allowFrom` entry: a string or a (whole) number. */
  datatype AllowEntry = Text(text: string) | Number(n: int)

  datatype MatchMode = Wildcard | Id | Name

  datatype AllowlistMatch = AllowlistMatch(allowed: bool, mode: MatchMode, matchedBy: Option<string>)

  datatype AllowParams = AllowParams(allowFrom: seq<AllowEntry>, senderId: string, senderName: Option<string>)

  /** `String(x)` */
  function EntryText(e: AllowEntry): string {
    match e
    case Text(s) => s
    case Number(n) => IntToString(n)
  }

  /** `String(x).trim().toLowerCase()` */
  function Normalize(s: string): string {
    Lower(Trim(s))
  }

  function NormalizeEntry(e: AllowEntry): string {
    Normalize(EntryText(e))
  }

  /** `xs.map(f).filter(Boolean)` for a string-valued `f`. */
  function NonEmptyImages<A>(xs: seq<A>, f: A -> string): seq<string> {
    if xs == [] then []
    else
      var init := NonEmptyImages(xs[..|xs| - 1], f);
      var n := f(xs[|xs| - 1]);
      if n == [] then init else init + [n]
  }

  lemma {:induction false} NonEmptyImagesMembers<A>(xs: seq<A>, f: A -> string)
    ensures forall s :: s in NonEmptyImages(xs, f) <==> s != [] && exists k :: 0 <= k < |xs| && f(xs[k]) == s
  {
    if xs != [] {
      var init := xs[..|xs| - 1];
      NonEmptyImagesMembers(init, f);
      assert forall k :: 0 <= k < |init| ==> init[k] == xs[k];
      forall s | s != [] && exists k :: 0 <= k < |xs| && f(xs[k]) == s
        ensures s in NonEmptyImages(xs, f)
      {
        var k :| 0 <= k < |xs| && f(xs[k]) == s;
        if k < |init| {
          assert f(init[k]) == s;
        }
      }
    }
  }

  /** The normalised allowlist, with the entries that normalise to the empty string dropped. */
  function NormalizedAllowlist(allowFrom: seq<AllowEntry>): seq<string> {
    NonEmptyImages(allowFrom, NormalizeEntry)
  }

  /** `senderName?.trim().toLowerCase()`, with `null`/`undefined` as `None`. */
  function NormalizedName(senderName: Option<string>): Option<string> {
    match senderName
    case Some(name) => Some(Normalize(name))
    case None => None
  }

  /**
   * The decision of the fallback over normalised values: the id is listed, or the
   * name is non-empty (the `senderName ?` test) and listed; `matchedBy` is the id
   * when it is listed and otherwise `senderName ?? null`.
   */
  function MatchNormalized(allow: seq<string>, id: string, name: Option<string>): AllowlistMatch {
    var allowed := id in allow || (name.Some? && name.value != [] && name.value in allow);
    AllowlistMatch(allowed, Id, if allowed then (if id in allow then Some(id) else name) else None)
  }

  /** The fallback matcher: exact normalised id or name, always reported with mode `id`. */
  function FallbackAllowlistMatch(p: AllowParams): AllowlistMatch {
    MatchNormalized(NormalizedAllowlist(p.allowFrom), Normalize(p.senderId), NormalizedName(p.senderName))
  }

  /** A normalised entry `x` names the sender: it is non-empty and equals the id or the name. */
  predicate NamesNormalized(x: string, id: string, name: Option<string>) {
    x != [] && (x == id || (name.Some? && x == name.value))
  }

  /** Entry `e` names the sender: it normalises to its id or, when it has one, to its name, and not to nothing. */
  predicate Names(e: AllowEntry, senderId: string, senderName: Option<string>) {
    NamesNormalized(NormalizeEntry(e), Normalize(senderId), NormalizedName(senderName))
  }

  lemma MatchNormalizedFacts<A>(xs: seq<A>, f: A -> string, id: string, name: Option<string>)
    ensures MatchNormalized(NonEmptyImages(xs, f), id, name).allowed <==>
      exists k :: 0 <= k < |xs| && NamesNormalized(f(xs[k]), id, name)
  {
    NonEmptyImagesMembers(xs, f);
    var allow := NonEmptyImages(xs, f);
    if id in allow {
      var k :| 0 <= k < |xs| && f(xs[k]) == id;
      assert NamesNormalized(f(xs[k]), id, name);
    } else if name.Some? && name.value != [] && name.value in allow {
      var k :| 0 <= k < |xs| && f(xs[k]) == name.value;
      assert NamesNormalized(f(xs[k]), id, name);
    }
    if exists k :: 0 <= k < |xs| && NamesNormalized(f(xs[k]), id, name) {
      var k :| 0 <= k < |xs| && NamesNormalized(f(xs[k]), id, name);
      assert f(xs[k]) in allow;
    }
  }

  /**
   * A sender passes the fallback allowlist iff some entry names it; `matchedBy` is
   * set exactly when it passes, to the id when the id matched and to the name otherwise.
   */
  lemma FallbackAllowlistMatchFacts(p: AllowParams)
    ensures FallbackAllowlistMatch(p).mode == Id
    ensures FallbackAllowlistMatch(p).allowed <==>
      exists k :: 0 <= k < |p.allowFrom| && Names(p.allowFrom[k], p.senderId, p.senderName)
    ensures FallbackAllowlistMatch(p).matchedBy.Some? <==> FallbackAllowlistMatch(p).allowed
    ensures FallbackAllowlistMatch(p).allowed ==>
      FallbackAllowlistMatch(p).matchedBy ==
        if Normalize(p.senderId) in NormalizedAllowlist(p.allowFrom) then Some(Normalize(p.senderId))
        else NormalizedName(p.senderName)
    ensures FallbackAllowlistMatch(p).allowed && Normalize(p.senderId) !in NormalizedAllowlist(p.allowFrom) ==>
      p.senderName.Some?
  {
    MatchNormalizedFacts(p.allowFrom, NormalizeEntry, Normalize(p.senderId), NormalizedName(p.senderName));
  }

  lemma MatchNormalizedMonotone<A>(xs: seq<A>, more: seq<A>, f: A -> string, id: string, name: Option<string>)
    requires MatchNormalized(NonEmptyImages(xs, f), id, name).allowed
    ensures MatchNormalized(NonEmptyImages(xs + more, f), id, name).allowed
  {
    MatchNormalizedFacts(xs, f, id, name);
    MatchNormalizedFacts(xs + more, f, id, name);
    var k :| 0 <= k < |xs| && NamesNormalized(f(xs[k]), id, name);
    assert (xs + more)[k] == xs[k];
  }

  /** Adding entries to the allowlist never takes access away from a sender. */
  lemma FallbackAllowlistMonotone(p: AllowParams, more: seq<AllowEntry>)
    ensures FallbackAllowlistMatch(p).allowed ==> FallbackAllowlistMatch(p.(allowFrom := p.allowFrom + more)).allowed
  {
    if FallbackAllowlistMatch(p).allowed {
      MatchNormalizedMonotone(p.allowFrom, more, NormalizeEntry, Normalize(p.senderId), NormalizedName(p.senderName));
    }
  }

  /** `resolveFeishuAllowlistMatch`: the plugin SDK's matcher when it has one, else the fallback. */
  function ResolveAllowlistMatch(sdkMatcher: Option<AllowParams -> AllowlistMatch>, p: AllowParams): (m: AllowlistMatch)
    ensures sdkMatcher.Some? ==> m == sdkMatcher.value(p)
    ensures sdkMatcher.None? ==> m == FallbackAllowlistMatch(p)
  {
    match sdkMatcher
    case Some(f) => f(p)
    case None => FallbackAllowlistMatch(p)
  }

  // ------------------------------------------------------------------ groups

  datatype GroupConfig<T> = GroupConfig(requireMention: Option<bool>, tools: Option<T>)

  datatype FeishuConfig<T> = FeishuConfig(groups: Option<seq<(string, GroupConfig<T>)>>, requireMention: Option<bool>)

  /** The first entry whose key is exactly `key`. */
  function FindExact<T>(groups: seq<(string, GroupConfig<T>)>, key: string): (r: Option<nat>)
    ensures r.Some? ==> r.value < |groups| && groups[r.value].0 == key
    ensures r.Some? ==> forall j :: 0 <= j < r.value ==> groups[j].0 != key
    ensures r.None? ==> forall j :: 0 <= j < |groups| ==> groups[j].0 != key
  {
    if groups == [] then None
    else if groups[0].0 == key then Some(0)
    else match FindExact(groups[1..], key)
      case Some(i) => Some(i + 1)
      case None => None
  }

  /** The first entry whose lower-cased key is `lowered`. */
  function FindFolded<T>(groups: seq<(string, GroupConfig<T>)>, lowered: string): (r: Option<nat>)
    ensures r.Some? ==> r.value < |groups| && Lower(groups[r.value].0) == lowered
    ensures r.Some? ==> forall j :: 0 <= j < r.value ==> Lower(groups[j].0) != lowered
    ensures r.None? ==> forall j :: 0 <= j < |groups| ==> Lower(groups[j].0) != lowered
  {
    if groups == [] then None
    else if Lower(groups[0].0) == lowered then Some(0)
    else match FindFolded(groups[1..], lowered)
      case Some(i) => Some(i + 1)
      case None => None
  }

  /** The trimmed group id when it is present and non-blank (the `!groupId` test). */
  function CleanGroupId(groupId: Option<string>): Option<string> {
    match groupId
    case Some(id) => if Trim(id) != [] then Some(Trim(id)) else None
    case None => None
  }

  /** `params.cfg?.groups ?? {}` */
  function GroupsOf<T>(cfg: Option<FeishuConfig<T>>): seq<(string, GroupConfig<T>)> {
    if cfg.Some? then cfg.value.groups.GetOr([]) else []
  }

  /** The group entry for a clean id: an exact key first, then the first key equal to it up to case. */
  function LookupGroup<T>(groups: seq<(string, GroupConfig<T>)>, id: string): Option<GroupConfig<T>> {
    match FindExact(groups, id)
    case Some(i) => Some(groups[i].1)
    case None =>
      match FindFolded(groups, Lower(id))
      case Some(i) => Some(groups[i].1)
      case None => None
  }

  /** `resolveFeishuGroupConfig` */
  function ResolveGroupConfig<T>(cfg: Option<FeishuConfig<T>>, groupId: Option<string>): Option<GroupConfig<T>> {
    match CleanGroupId(groupId)
    case None => None
    case Some(id) => LookupGroup(GroupsOf(cfg), id)
  }

  /** Entry `i` is the first whose key is exactly `key`. */
  predicate FirstExactAt<T>(groups: seq<(string, GroupConfig<T>)>, key: string, i: int) {
    0 <= i < |groups| && groups[i].0 == key && forall j :: 0 <= j < i ==> groups[j].0 != key
  }

  /** Entry `i` is the first whose lower-cased key is `lowered`. */
  predicate FirstFoldedAt<T>(groups: seq<(string, GroupConfig<T>)>, lowered: string, i: int) {
    0 <= i < |groups| && Lower(groups[i].0) == lowered && forall j :: 0 <= j < i ==> Lower(groups[j].0) != lowered
  }

  /** An exact key hit wins. */
  lemma ResolveGroupConfigExact<T>(cfg: Option<FeishuConfig<T>>, groupId: Option<string>, i: int)
    requires CleanGroupId(groupId).Some? && FirstExactAt(GroupsOf(cfg), CleanGroupId(groupId).value, i)
    ensures ResolveGroupConfig(cfg, groupId) == Some(GroupsOf(cfg)[i].1)
  {
    LookupGroupExact(GroupsOf(cfg), CleanGroupId(groupId).value, i);
  }

  lemma LookupGroupExact<T>(groups: seq<(string, GroupConfig<T>)>, id: string, i: int)
    requires FirstExactAt(groups, id, i)
    ensures LookupGroup(groups, id) == Some(groups[i].1)
  {
    var r := FindExact(groups, id);
    assert r.Some?;
    assert FirstExactAt(groups, id, r.value);
  }

  /** Without an exact key, the first key equal to the id up to case is used. */
  lemma ResolveGroupConfigFolded<T>(cfg: Option<FeishuConfig<T>>, groupId: Option<string>, i: int)
    requires CleanGroupId(groupId).Some?
    ensures && (forall j :: 0 <= j < |GroupsOf(cfg)| ==> GroupsOf(cfg)[j].0 != CleanGroupId(groupId).value)
            && FirstFoldedAt(GroupsOf(cfg), Lower(CleanGroupId(groupId).value), i)
            ==> ResolveGroupConfig(cfg, groupId) == Some(GroupsOf(cfg)[i].1)
  {
    var id := CleanGroupId(groupId).value;
    if (forall j :: 0 <= j < |GroupsOf(cfg)| ==> GroupsOf(cfg)[j].0 != id) && FirstFoldedAt(GroupsOf(cfg), Lower(id), i) {
      LookupGroupFolded(GroupsOf(cfg), id, i);
    }
  }

  lemma LookupGroupFolded<T>(groups: seq<(string, GroupConfig<T>)>, id: string, i: int)
    requires forall j :: 0 <= j < |groups| ==> groups[j].0 != id
    requires FirstFoldedAt(groups, Lower(id), i)
    ensures LookupGroup(groups, id) == Some(groups[i].1)
  {
    var r := FindFolded(groups, Lower(id));
    assert r.Some?;
    assert FirstFoldedAt(groups, Lower(id), r.value);
  }

  /** Nothing is found exactly when the id is absent or blank, or no key equals it up to case. */
  lemma ResolveGroupConfigMissing<T>(cfg: Option<FeishuConfig<T>>, groupId: Option<string>)
    ensures ResolveGroupConfig(cfg, groupId).None? <==>
      CleanGroupId(groupId).None? ||
      forall j :: 0 <= j < |GroupsOf(cfg)| ==> Lower(GroupsOf(cfg)[j].0) != Lower(CleanGroupId(groupId).value)
  {
    if CleanGroupId(groupId).Some? {
      LookupGroupMissing(GroupsOf(cfg), CleanGroupId(groupId).value);
    }
  }

  lemma LookupGroupMissing<T>(groups: seq<(string, GroupConfig<T>)>, id: string)
    ensures LookupGroup(groups, id).None? <==> forall j :: 0 <= j < |groups| ==> Lower(groups[j].0) != Lower(id)
  {
    var r := FindExact(groups, id);
    if r.Some? {
      assert Lower(groups[r.value].0) == Lower(id);
    }
  }

  /** `resolveFeishuGroupToolPolicy`: nothing without a Feishu configuration, else the group's `tools`. */
  function ResolveGroupToolPolicy<T>(feishu: Option<FeishuConfig<T>>, groupId: Option<string>): (r: Option<T>)
    ensures feishu.None? ==> r.None?
    ensures feishu.Some? && ResolveGroupConfig(feishu, groupId).None? ==> r.None?
    ensures feishu.Some? && ResolveGroupConfig(feishu, groupId).Some? ==>
      r == ResolveGroupConfig(feishu, groupId).value.tools
  {
    if feishu.None? then None
    else
      match ResolveGroupConfig(feishu, groupId)
      case Some(g) => g.tools
      case None => None
  }

  datatype GroupPolicy = Open | Allowlist | Disabled

  /** `isFeishuGroupAllowed` */
  function IsGroupAllowed(sdkMatcher: Option<AllowParams -> AllowlistMatch>, policy: GroupPolicy, p: AllowParams): bool {
    match policy
    case Disabled => false
    case Open => true
    case Allowlist => ResolveAllowlistMatch(sdkMatcher, p).allowed
  }

  /**
   * "disabled" refuses and "open" admits every sender whatever the allowlist holds;
   * "allowlist" with the fallback matcher admits exactly the senders an entry names,
   * and more entries never refuse one that was admitted.
   */
  lemma IsGroupAllowedFacts(sdkMatcher: Option<AllowParams -> AllowlistMatch>, p: AllowParams, more: seq<AllowEntry>)
    ensures !IsGroupAllowed(sdkMatcher, Disabled, p)
    ensures IsGroupAllowed(sdkMatcher, Open, p)
    ensures IsGroupAllowed(sdkMatcher, Allowlist, p) == ResolveAllowlistMatch(sdkMatcher, p).allowed
    ensures sdkMatcher.None? && IsGroupAllowed(sdkMatcher, Allowlist, p) ==>
      IsGroupAllowed(sdkMatcher, Allowlist, p.(allowFrom := p.allowFrom + more))
  {
    if sdkMatcher.None? && IsGroupAllowed(sdkMatcher, Allowlist, p) {
      FallbackAllowlistMonotone(p, more);
    }
  }

  /** `params.groupConfig?.requireMention` */
  function GroupSetting<T>(groupConfig: Option<GroupConfig<T>>): Option<bool> {
    if groupConfig.Some? then groupConfig.value.requireMention else None
  }

  /** `params.globalConfig?.requireMention` */
  function GlobalSetting<T>(globalConfig: Option<FeishuConfig<T>>): Option<bool> {
    if globalConfig.Some? then globalConfig.value.requireMention else None
  }

  /**
   * `resolveFeishuReplyPolicy`: a direct message never needs a mention; otherwise
   * the group's setting, else the global one, else a mention is required.
   */
  function ResolveReplyPolicy<T>(isDirectMessage: bool, globalConfig: Option<FeishuConfig<T>>, groupConfig: Option<GroupConfig<T>>)
    : (requireMention: bool)
    ensures isDirectMessage ==> !requireMention
    ensures !isDirectMessage && GroupSetting(groupConfig).Some? ==> requireMention == GroupSetting(groupConfig).value
    ensures !isDirectMessage && GroupSetting(groupConfig).None? && GlobalSetting(globalConfig).Some? ==>
      requireMention == GlobalSetting(globalConfig).value
    ensures !isDirectMessage && GroupSetting(groupConfig).None? && GlobalSetting(globalConfig).None? ==> requireMention
  {
    if isDirectMessage then false
    else GroupSetting(groupConfig).GetOr(GlobalSetting(globalConfig).GetOr(true))
  }
}
