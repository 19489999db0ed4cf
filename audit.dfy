/** The audit trail and the data-quality summary: the fields `AuditLog.log`
    derives from its arguments and the request, the client address, the
    quality score, and the `recent`, `by_entity` and `by_user` views over
    the log table (given newest first, its default ordering). */
module Audit {
  import opened Wrappers
  import opened Accounts

  // ---------------------------------------------------------------------------
  // AuditLog.log
  // ---------------------------------------------------------------------------

  /** The headers `log` reads from a request; `None` is an absent header. */
  datatype Request = Request(forwardedFor: Option<string>, remoteAddr: Option<string>, userAgent: Option<string>)

  /** A JSON object passed as old or new values, kept as a map of its
      fields' texts. */
  type Values = map<string, string>

  datatype Entry = Entry(user: Option<nat>, userName: string, userRole: string, action: string,
                         entityType: string, entityId: string, entityName: string,
                         oldValues: Values, newValues: Values, ipAddress: Option<string>,
                         userAgent: string, createdAt: int)

  /** The text before the first comma (all of it without a comma). */
  function BeforeComma(s: string): (r: string)
    ensures |r| <= |s| && r == s[..|r|]
    ensures ',' !in r
    ensures |r| < |s| ==> s[|r|] == ','
  {
    if s == [] || s[0] == ',' then [] else [s[0]] + BeforeComma(s[1..])
  }

  /** `_get_client_ip`: the first entry of a non-empty X-Forwarded-For
      header, not stripped; otherwise REMOTE_ADDR, if any. */
  function ClientIp(req: Request): (r: Option<string>)
    ensures req.forwardedFor.Some? && req.forwardedFor.value != [] ==>
      r.Some? && r.value == BeforeComma(req.forwardedFor.value)
    ensures req.forwardedFor.None? || req.forwardedFor.value == [] ==> r == req.remoteAddr
  {
    match req.forwardedFor
    case Some(header) =>
      if header != [] then Some(BeforeComma(header)) else req.remoteAddr
    case None => req.remoteAddr
  }

  /** A forwarded address is never more than one hop: it holds no comma
      and starts the header. */
  lemma ForwardedIsFirstHop(req: Request)
    requires req.forwardedFor.Some? && req.forwardedFor.value != []
    ensures var ip := ClientIp(req).value;
      ',' !in ip && req.forwardedFor.value[..|ip|] == ip
  {
  }

  /** `old_values or {}`: an absent object is stored empty. */
  function OrEmpty(v: Option<Values>): (r: Values)
    ensures v.None? ==> r == map[]
    ensures v.Some? ==> r == v.value
  {
    if v.Some? then v.value else map[]
  }

  /** The database's handling of an address, which the model takes as
      parameters: `canonical6` is the canonical form of an IPv6 text (`None`
      when the text is none), and `inetAccepts` tells whether PostgreSQL's
      `inet` type accepts a text. */
  datatype Inet = Inet(canonical6: string -> Option<string>, inetAccepts: string -> bool)

  /** How the `GenericIPAddressField` stores an address: no address and an
      empty text as NULL, a text with ':' that is an IPv6 address in its
      canonical form, anything else as it is; `None` when `inet` refuses
      the text and the insert fails. */
  function StoredIp(ip: Option<string>, db: Inet): (r: Option<Option<string>>)
    ensures ip.None? || ip == Some("") ==> r == Some(None)
    ensures ip.Some? && ip.value != "" && ':' in ip.value && db.canonical6(ip.value).Some? ==>
      r == Some(db.canonical6(ip.value))
    ensures ip.Some? && ip.value != "" && !(':' in ip.value && db.canonical6(ip.value).Some?) ==>
      r == (if db.inetAccepts(ip.value) then Some(ip) else None)
  {
    match ip
    case None => Some(None)
    case Some(text) =>
      if text == "" then Some(None)
      else if ':' in text && db.canonical6(text).Some? then Some(db.canonical6(text))
      else if db.inetAccepts(text) then Some(ip)
      else None
  }

  /** `AuditLog.log`: the entry it inserts, or `None` when the database
      refuses the client address. `entityId` is the identifier as `str()`
      renders it. */
  function Log(user: Option<User>, action: string, entityType: string, entityId: string, entityName: string,
               oldValues: Option<Values>, newValues: Option<Values>, request: Option<Request>, now: int, db: Inet): (r: Option<Entry>)
    ensures r.None? <==> request.Some? && StoredIp(ClientIp(request.value), db).None?
    ensures r.Some? ==> var e := r.value;
      && (user.None? ==> e.user.None? && e.userName == "Anonymous" && e.userRole == "")
      && (user.Some? ==> e.user == Some(user.value.id) && e.userName == FullName(user.value) && e.userRole == user.value.role.Value())
      && (request.None? ==> e.ipAddress.None? && e.userAgent == "")
      && (request.Some? ==> Some(e.ipAddress) == StoredIp(ClientIp(request.value), db) && e.userAgent == request.value.userAgent.GetOr(""))
      && e.oldValues == OrEmpty(oldValues) && e.newValues == OrEmpty(newValues)
      && e.action == action && e.entityType == entityType && e.entityId == entityId && e.entityName == entityName
      && e.createdAt == now
  {
    var stored := if request.Some? then StoredIp(ClientIp(request.value), db) else Some(None);
    var agent := if request.Some? then request.value.userAgent.GetOr("") else "";
    if stored.None? then None
    else
      Some(Entry(if user.Some? then Some(user.value.id) else None,
                 if user.Some? then FullName(user.value) else "Anonymous",
                 if user.Some? then user.value.role.Value() else "",
                 action, entityType, entityId, entityName, OrEmpty(oldValues), OrEmpty(newValues), stored.value, agent, now))
  }

  /** A forwarded header whose first hop is empty (it starts with a comma)
      stores no address, whatever the database accepts. */
  lemma EmptyFirstHopStoredNull(user: Option<User>, action: string, entityType: string, entityId: string,
                                 entityName: string, request: Request, now: int, db: Inet)
    requires request.forwardedFor.Some? && request.forwardedFor.value != [] && request.forwardedFor.value[0] == ','
    ensures var r := Log(user, action, entityType, entityId, entityName, None, None, Some(request), now, db);
      r.Some? && r.value.ipAddress.None?
  {
    assert BeforeComma(request.forwardedFor.value) == "";
  }

  // ---------------------------------------------------------------------------
  // The quality summary
  // ---------------------------------------------------------------------------

  datatype CheckStatus = Passed | Warning | Failed

  function CountStatus(checks: seq<CheckStatus>, s: CheckStatus): (n: nat)
    ensures n <= |checks|
  {
    if checks == [] then 0
    else CountStatus(checks[..|checks| - 1], s) + (if checks[|checks| - 1] == s then 1 else 0)
  }

  /** Every check has one of the three statuses. */
  lemma {:induction false} StatusCountsCover(checks: seq<CheckStatus>)
    ensures CountStatus(checks, Passed) + CountStatus(checks, Warning) + CountStatus(checks, Failed) == |checks|
  {
    if checks != [] {
      StatusCountsCover(checks[..|checks| - 1]);
    }
  }

  /** All checks passed exactly when the passed count is the total. */
  lemma {:induction false} AllPassedIff(checks: seq<CheckStatus>)
    ensures CountStatus(checks, Passed) == |checks| <==> forall i :: 0 <= i < |checks| ==> checks[i] == Passed
  {
    if checks != [] {
      var init := checks[..|checks| - 1];
      AllPassedIff(init);
      assert forall i :: 0 <= i < |init| ==> init[i] == checks[i];
    }
  }

  datatype Summary = Summary(total: nat, passed: nat, warning: nat, failed: nat, score: real)

  /** `summary`: the counts, and the score that weighs a passed check 100
      and a warning 50, averaged over all checks; 100 without any check. */
  function QualitySummary(checks: seq<CheckStatus>): (r: Summary)
    ensures r.total == |checks| && r.passed == CountStatus(checks, Passed)
    ensures r.warning == CountStatus(checks, Warning) && r.failed == CountStatus(checks, Failed)
    ensures r.total == 0 ==> r.score == 100.0
    ensures r.total > 0 ==> r.score == ((r.passed * 100 + r.warning * 50) as real) / (r.total as real)
  {
    var passed := CountStatus(checks, Passed);
    var warning := CountStatus(checks, Warning);
    var failed := CountStatus(checks, Failed);
    var score := if checks == [] then 100.0 else ((passed * 100 + warning * 50) as real) / (|checks| as real);
    Summary(|checks|, passed, warning, failed, score)
  }

  /** Dividing and multiplying back gives the dividend. */
  lemma DivisionUndone(a: real, b: real)
    requires b > 0.0
    ensures (a / b) * b == a
  {
  }

  /** The score lies between 0 and 100, and is 100 exactly when no check
      warned or failed. */
  lemma ScoreBounds(checks: seq<CheckStatus>)
    ensures 0.0 <= QualitySummary(checks).score <= 100.0
    ensures QualitySummary(checks).score == 100.0 <==> forall i :: 0 <= i < |checks| ==> checks[i] == Passed
  {
    var r := QualitySummary(checks);
    StatusCountsCover(checks);
    assert r.passed + r.warning <= r.total;
    AllPassedIff(checks);
    if r.total > 0 {
      WeightedScore(r.passed, r.warning, r.total, r.score);
    }
  }

  /** The weighted count divided by the total lies in
      [0, 100], and reaches 100 only when every check passed. */
  lemma WeightedScore(passed: nat, warning: nat, total: nat, score: real)
    requires 0 < total && passed + warning <= total
    requires score == ((passed * 100 + warning * 50) as real) / (total as real)
    ensures 0.0 <= score <= 100.0
    ensures score == 100.0 <==> passed == total
  {
    DivisionUndone((passed * 100 + warning * 50) as real, total as real);
    var weighted := passed * 100 + warning * 50;
    assert weighted <= 100 * total;
    assert weighted == 100 * total <==> passed == total;
    var t := total as real;
    assert (score - 100.0) * t == (weighted - 100 * total) as real;
    assert (score - 100.0) * t <= 0.0;
  }

  // ---------------------------------------------------------------------------
  // recent
  // ---------------------------------------------------------------------------

  /** The default window of `recent`, in days, and the most logs it returns. */
  const DefaultWindowDays := 7
  const RecentLimit := 50
  const SecondsPerDay := 86400

  /** The logs created at or after `since`, in table order. */
  function LogsSince(logs: seq<Entry>, since: int): (r: seq<Entry>)
    ensures |r| <= |logs|
    ensures forall i :: 0 <= i < |r| ==> r[i] in logs && r[i].createdAt >= since
    ensures forall j :: 0 <= j < |logs| && logs[j].createdAt >= since ==> logs[j] in r
  {
    if logs == [] then []
    else
      var init := logs[..|logs| - 1];
      assert forall j :: 0 <= j < |init| ==> init[j] == logs[j];
      var last := logs[|logs| - 1];
      LogsSince(init, since) + (if last.createdAt >= since then [last] else [])
  }

  /** `recent`: the first 50 logs, newest first, of the last `days` days
      (7 when the parameter is absent); `now` is in seconds. */
  function Recent(logs: seq<Entry>, now: int, days: Option<int>): (r: seq<Entry>)
    ensures |r| <= RecentLimit
    ensures var since := now - days.GetOr(DefaultWindowDays) * SecondsPerDay;
      && (forall i :: 0 <= i < |r| ==> r[i] in logs && r[i].createdAt >= since)
      && |r| <= |LogsSince(logs, since)|
      && r == LogsSince(logs, since)[..|r|]
      && (|r| < RecentLimit ==> r == LogsSince(logs, since))
  {
    var all := LogsSince(logs, now - days.GetOr(DefaultWindowDays) * SecondsPerDay);
    if |all| <= RecentLimit then all else all[..RecentLimit]
  }

  /** With fewer than 50 logs in the window, `recent` returns every one. */
  lemma RecentComplete(logs: seq<Entry>, now: int, days: Option<int>, j: nat)
    requires j < |logs| && logs[j].createdAt >= now - days.GetOr(DefaultWindowDays) * SecondsPerDay
    requires |LogsSince(logs, now - days.GetOr(DefaultWindowDays) * SecondsPerDay)| < RecentLimit
    ensures logs[j] in Recent(logs, now, days)
  {
  }

  // ---------------------------------------------------------------------------
  // by_entity and by_user
  // ---------------------------------------------------------------------------

  /** How many times `k` occurs. */
  function Occurrences<K(==)>(keys: seq<K>, k: K): nat {
    if keys == [] then 0
    else Occurrences(keys[..|keys| - 1], k) + (if keys[|keys| - 1] == k then 1 else 0)
  }

  predicate DistinctKeys<K(==)>(groups: seq<(K, nat)>) {
    forall i, j :: 0 <= i < j < |groups| ==> groups[i].0 != groups[j].0
  }

  /** The position of the group of key `k`, if any. */
  function GroupOf<K(==)>(groups: seq<(K, nat)>, k: K): (r: Option<nat>)
    ensures r.Some? ==> r.value < |groups| && groups[r.value].0 == k
    ensures r.None? ==> forall i :: 0 <= i < |groups| ==> groups[i].0 != k
  {
    if groups == [] then None
    else if groups[0].0 == k then Some(0)
    else match GroupOf(groups[1..], k)
      case None => None
      case Some(i) => Some(i + 1)
  }

  /** `values(...).annotate(count=Count('id'))`: one group per distinct key,
      with its number of occurrences. */
  function Tally<K(==,!new)>(keys: seq<K>): (r: seq<(K, nat)>)
    ensures DistinctKeys(r)
    ensures forall i :: 0 <= i < |r| ==> r[i].1 == Occurrences(keys, r[i].0) && r[i].1 > 0
    ensures forall k :: Occurrences(keys, k) > 0 ==> GroupOf(r, k).Some?
  {
    if keys == [] then []
    else
      var init := keys[..|keys| - 1];
      var k := keys[|keys| - 1];
      var prev := Tally(init);
      match GroupOf(prev, k)
      case Some(j) =>
        var r := prev[j := (k, prev[j].1 + 1)];
        BumpedGroupsCover(keys, prev, j, prev[j].1 + 1);
        r
      case None =>
        var r := prev + [(k, 1)];
        AppendedGroupCovers(keys, prev);
        r
  }

  /** Counting one more occurrence of an existing key keeps every key grouped. */
  lemma BumpedGroupsCover<K>(keys: seq<K>, prev: seq<(K, nat)>, j: nat, n: nat)
    requires keys != [] && j < |prev| && prev[j].0 == keys[|keys| - 1]
    requires forall x :: Occurrences(keys[..|keys| - 1], x) > 0 ==> GroupOf(prev, x).Some?
    ensures forall x :: Occurrences(keys, x) > 0 ==> GroupOf(prev[j := (keys[|keys| - 1], n)], x).Some?
  {
    var k := keys[|keys| - 1];
    var r := prev[j := (k, n)];
    forall x | Occurrences(keys, x) > 0
      ensures GroupOf(r, x).Some?
    {
      if x != k {
        assert Occurrences(keys[..|keys| - 1], x) > 0;
        var i := GroupOf(prev, x).value;
        assert r[i].0 == x;
      } else {
        assert r[j].0 == x;
      }
    }
  }

  /** Opening a group for a new key keeps every key grouped. */
  lemma AppendedGroupCovers<K>(keys: seq<K>, prev: seq<(K, nat)>)
    requires keys != []
    requires forall x :: Occurrences(keys[..|keys| - 1], x) > 0 ==> GroupOf(prev, x).Some?
    ensures forall x :: Occurrences(keys, x) > 0 ==> GroupOf(prev + [(keys[|keys| - 1], 1)], x).Some?
  {
    var k := keys[|keys| - 1];
    var r := prev + [(k, 1)];
    forall x | Occurrences(keys, x) > 0
      ensures GroupOf(r, x).Some?
    {
      if x != k {
        assert Occurrences(keys[..|keys| - 1], x) > 0;
        var i := GroupOf(prev, x).value;
        assert r[i].0 == x;
      } else {
        assert r[|prev|].0 == x;
      }
    }
  }

  predicate SortedByCountDesc<K>(groups: seq<(K, nat)>) {
    forall i, j :: 0 <= i < j < |groups| ==> groups[i].1 >= groups[j].1
  }

  /** Places a group in a list sorted by decreasing count. */
  function InsertByCount<K(==)>(g: (K, nat), groups: seq<(K, nat)>): (r: seq<(K, nat)>)
    requires SortedByCountDesc(groups)
    ensures SortedByCountDesc(r)
    ensures multiset(r) == multiset(groups) + multiset{g}
    ensures r[0] == g || (groups != [] && r[0] == groups[0])
  {
    if groups == [] then [g]
    else if g.1 >= groups[0].1 then
      SortedCons(g, groups);
      [g] + groups
    else
      var rest := InsertByCount(g, groups[1..]);
      SortedCons(groups[0], rest);
      assert groups == [groups[0]] + groups[1..];
      assert multiset([groups[0]] + rest) == multiset{groups[0]} + multiset(rest);
      [groups[0]] + rest
  }

  /** A group no smaller than the head of a sorted list can go in front. */
  lemma SortedCons<K>(h: (K, nat), groups: seq<(K, nat)>)
    requires SortedByCountDesc(groups) && (groups == [] || h.1 >= groups[0].1)
    ensures SortedByCountDesc([h] + groups)
  {
    var r := [h] + groups;
    forall i, j | 0 <= i < j < |r| ensures r[i].1 >= r[j].1 {
      if i == 0 {
        assert r[j] == groups[j - 1];
      } else {
        assert r[i] == groups[i - 1] && r[j] == groups[j - 1];
      }
    }
  }

  /** `order_by('-count')`: the groups sorted by decreasing count. */
  function SortByCountDesc<K(==)>(groups: seq<(K, nat)>): (r: seq<(K, nat)>)
    ensures SortedByCountDesc(r)
    ensures multiset(r) == multiset(groups)
  {
    if groups == [] then []
    else
      assert groups == [groups[0]] + groups[1..];
      InsertByCount(groups[0], SortByCountDesc(groups[1..]))
  }

  /** The groups of a key list, sorted: each entry is a key with its true
      count, and each key that occurs has an entry. */
  lemma SortedTally<K(!new)>(keys: seq<K>)
    ensures var s := SortByCountDesc(Tally(keys));
      && (forall i :: 0 <= i < |s| ==> s[i].1 == Occurrences(keys, s[i].0) && s[i].1 > 0)
      && (forall k :: Occurrences(keys, k) > 0 ==> exists i :: 0 <= i < |s| && s[i].0 == k)
  {
    var t := Tally(keys);
    var s := SortByCountDesc(t);
    forall i | 0 <= i < |s|
      ensures s[i].1 == Occurrences(keys, s[i].0) && s[i].1 > 0
    {
      assert s[i] in multiset(s);
      assert s[i] in t;
    }
    forall k | Occurrences(keys, k) > 0
      ensures exists i :: 0 <= i < |s| && s[i].0 == k
    {
      var j := GroupOf(t, k).value;
      assert t[j] in multiset(t);
      assert t[j] in s;
    }
  }

  /** The key `by_entity` groups by. */
  function EntityTypes(logs: seq<Entry>): (r: seq<string>)
    ensures |r| == |logs| && forall i :: 0 <= i < |r| ==> r[i] == logs[i].entityType
  {
    seq(|logs|, i requires 0 <= i < |logs| => logs[i].entityType)
  }

  /** `by_entity`: the number of logs per entity type, largest first. */
  function ByEntity(logs: seq<Entry>): (r: seq<(string, nat)>)
    ensures SortedByCountDesc(r)
    ensures forall i :: 0 <= i < |r| ==> r[i].1 == Occurrences(EntityTypes(logs), r[i].0) && r[i].1 > 0
    ensures forall k :: Occurrences(EntityTypes(logs), k) > 0 ==> exists i :: 0 <= i < |r| && r[i].0 == k
  {
    SortedTally(EntityTypes(logs));
    SortByCountDesc(Tally(EntityTypes(logs)))
  }

  /** The most groups `by_user` returns. */
  const UserGroupLimit := 20

  /** The key `by_user` groups by: the user and the stored name. */
  function UserKeys(logs: seq<Entry>): (r: seq<(Option<nat>, string)>)
    ensures |r| == |logs| && forall i :: 0 <= i < |r| ==> r[i] == (logs[i].user, logs[i].userName)
  {
    seq(|logs|, i requires 0 <= i < |logs| => (logs[i].user, logs[i].userName))
  }

  /** `by_user`: the 20 largest (user, name) groups, largest first. A group
      left out has no more logs than any group returned. */
  function ByUser(logs: seq<Entry>): (r: seq<((Option<nat>, string), nat)>)
    ensures |r| <= UserGroupLimit && SortedByCountDesc(r)
    ensures forall i :: 0 <= i < |r| ==> r[i].1 == Occurrences(UserKeys(logs), r[i].0) && r[i].1 > 0
    ensures LeftOutOutnumbered(UserKeys(logs), r, UserGroupLimit)
  {
    TopGroupsLargest(UserKeys(logs), UserGroupLimit);
    Take(SortByCountDesc(Tally(UserKeys(logs))), UserGroupLimit)
  }

  /** `groups` holds the `limit` largest groups of `keys`: a key that
      occurs but has no group there only happens when all `limit` places are
      taken, each by a group at least as large. */
  ghost predicate LeftOutOutnumbered<K(!new)>(keys: seq<K>, groups: seq<(K, nat)>, limit: nat) {
    forall k :: Occurrences(keys, k) > 0 && (forall i :: 0 <= i < |groups| ==> groups[i].0 != k) ==>
      |groups| == limit && forall i :: 0 <= i < |groups| ==> groups[i].1 >= Occurrences(keys, k)
  }

  /** The first `n` items (all of them when there are fewer). */
  function Take<T>(s: seq<T>, n: nat): (r: seq<T>)
    ensures |r| <= n && |r| <= |s| && (|s| <= n ==> |r| == |s|) && (|s| > n ==> |r| == n)
    ensures forall i :: 0 <= i < |r| ==> r[i] == s[i]
  {
    if |s| <= n then s else s[..n]
  }

  /** The first `limit` sorted groups are the largest, sorted, with their
      true counts: a key that occurs but is not among them is outnumbered
      by each of them. */
  lemma TopGroupsLargest<K(!new)>(keys: seq<K>, limit: nat)
    ensures var r := Take(SortByCountDesc(Tally(keys)), limit);
      && SortedByCountDesc(r)
      && (forall i :: 0 <= i < |r| ==> r[i].1 == Occurrences(keys, r[i].0) && r[i].1 > 0)
      && LeftOutOutnumbered(keys, r, limit)
  {
    var s := SortByCountDesc(Tally(keys));
    var r := Take(s, limit);
    SortedTally(keys);
    PrefixSorted(s, r);
    forall k | Occurrences(keys, k) > 0 && (forall i :: 0 <= i < |r| ==> r[i].0 != k)
      ensures |r| == limit && forall i :: 0 <= i < |r| ==> r[i].1 >= Occurrences(keys, k)
    {
      var j := FindGroup(keys, k);
      assert forall i :: 0 <= i < |r| ==> s[i].0 != k;
      OutsidePrefix(s, r, j, k);
    }
  }

  /** A prefix of a sorted list is sorted. */
  lemma PrefixSorted<K>(s: seq<(K, nat)>, r: seq<(K, nat)>)
    requires SortedByCountDesc(s) && |r| <= |s| && forall i :: 0 <= i < |r| ==> r[i] == s[i]
    ensures SortedByCountDesc(r)
  {
  }

  /** Where a key that occurs sits among the sorted groups. */
  lemma FindGroup<K(!new)>(keys: seq<K>, k: K) returns (j: nat)
    requires Occurrences(keys, k) > 0
    ensures j < |SortByCountDesc(Tally(keys))| && SortByCountDesc(Tally(keys))[j] == (k, Occurrences(keys, k))
  {
    var t := Tally(keys);
    var s := SortByCountDesc(t);
    var g := GroupOf(t, k).value;
    assert t[g] in multiset(t);
    assert t[g] in s;
    j :| 0 <= j < |s| && s[j] == t[g];
  }

  /** A group of a sorted list that is not in a proper prefix comes after
      it and is outnumbered by each group of the prefix. */
  lemma OutsidePrefix<K>(s: seq<(K, nat)>, r: seq<(K, nat)>, j: nat, k: K)
    requires SortedByCountDesc(s) && j < |s| && |r| <= |s| && forall i :: 0 <= i < |r| ==> r[i] == s[i]
    requires s[j].0 == k && forall i :: 0 <= i < |r| ==> s[i].0 != k
    ensures |r| <= j && |r| < |s|
    ensures forall i :: 0 <= i < |r| ==> r[i].1 >= s[j].1
  {
  }
}
