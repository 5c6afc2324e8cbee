/**
 * The table of in-flight actions behind the "Still waiting for N jobs"
 * message: each action's latest status and the time it entered it, the
 * grouped and truncated listing built from that table, and the back-off of
 * the reporting interval.
 *
 * The clock is a parameter (`now`, `currentTime`, in nanoseconds). Messages
 * are records (header, groups, lines) rather than formatted text.
 */
module ActionStatus {
  import opened Wrappers

  /** The status of an action that has not started executing yet. */
  const PREPARING: string := "Preparing"

  /** The status of an action waiting for a scheduler slot. */
  const SCHEDULING: string := "Scheduling"

  /** At most this many lines per status group, the last one being "... n more jobs". */
  const MAX_LINES: nat := 10

  /** Nanoseconds per second, the divisor turning a running time into seconds. */
  const NANOS_PER_SECOND: int := 1_000_000_000

  /** An action's status message and the clock reading when it was set. */
  datatype Status = Status(message: string, startTime: int)

  /* ---------------------------------------------------------------------- */
  /* Ordering                                                                */
  /* ---------------------------------------------------------------------- */

  /**
   * `String.compareTo` as a strict order: the first differing character
   * decides, and a proper prefix comes first.
   */
  predicate StringLess(a: string, b: string) {
    if a == [] then b != []
    else if b == [] then false
    else if a[0] != b[0] then a[0] < b[0]
    else StringLess(a[1..], b[1..])
  }

  lemma {:induction false} StringLessIrreflexive(a: string)
    ensures !StringLess(a, a)
  {
    if a != [] {
      StringLessIrreflexive(a[1..]);
    }
  }

  lemma {:induction false} StringLessTransitive(a: string, b: string, c: string)
    requires StringLess(a, b) && StringLess(b, c)
    ensures StringLess(a, c)
    decreases |a|
  {
    if a != [] && b != [] && c != [] && a[0] == b[0] && b[0] == c[0] {
      StringLessTransitive(a[1..], b[1..], c[1..]);
    }
  }

  lemma {:induction false} StringLessTotal(a: string, b: string)
    requires a != b
    ensures StringLess(a, b) || StringLess(b, a)
    decreases |a|
  {
    if a != [] && b != [] && a[0] == b[0] {
      assert a == [a[0]] + a[1..] && b == [b[0]] + b[1..];
      StringLessTotal(a[1..], b[1..]);
    }
  }

  /** Every non-empty set of strings has a least element, which a sorted set yields first. */
  lemma {:induction false} LeastStringExists(strings: set<string>)
    requires strings != {}
    ensures exists m :: m in strings && forall t :: t in strings && t != m ==> StringLess(m, t)
    decreases |strings|
  {
    var x :| x in strings;
    if strings != {x} {
      var y :| y in strings && y != x;
      LeastStringExists(strings - {x});
      var m :| m in strings - {x} && forall t :: t in strings - {x} && t != m ==> StringLess(m, t);
      StringLessTotal(m, x);
      if StringLess(m, x) {
        assert forall t :: t in strings && t != m ==> StringLess(m, t);
      } else {
        forall t | t in strings && t != x
          ensures StringLess(x, t)
        {
          if t != m {
            StringLessTransitive(x, m, t);
          }
        }
      }
    }
  }

  /** An action with the time it entered its status, the element sorted by `compareByFirst`. */
  datatype Entry<A> = Entry(start: int, action: A)

  ghost predicate SortedByStart<A>(s: seq<Entry<A>>) {
    forall i, j :: 0 <= i < j < |s| ==> s[i].start <= s[j].start
  }

  /** Insertion of one entry into a list, before the first entry that does not start earlier. */
  function InsertByStart<A>(e: Entry<A>, s: seq<Entry<A>>): (r: seq<Entry<A>>)
    ensures |r| == |s| + 1
    ensures e in r && forall i :: 0 <= i < |s| ==> s[i] in r
    ensures forall i :: 0 <= i < |r| ==> r[i] == e || r[i] in s
    ensures multiset(r) == multiset(s) + multiset{e}
  {
    if s == [] || e.start <= s[0].start then [e] + s
    else
      assert s == [s[0]] + s[1..];
      [s[0]] + InsertByStart(e, s[1..])
  }

  /** Every entry of an insertion starts no earlier than a bound that the entry and the list respect. */
  lemma InsertKeepsLowerBound<A>(e: Entry<A>, t: seq<Entry<A>>, b: int)
    requires b <= e.start
    requires forall i :: 0 <= i < |t| ==> b <= t[i].start
    ensures forall i :: 0 <= i < |InsertByStart(e, t)| ==> b <= InsertByStart(e, t)[i].start
  {
    var r := InsertByStart(e, t);
    forall i | 0 <= i < |r|
      ensures b <= r[i].start
    {
      if r[i] != e {
        var k :| 0 <= k < |t| && t[k] == r[i];
      }
    }
  }

  /** An entry that starts no later than every entry of a sorted list can go in front of it. */
  lemma ConsKeepsSorted<A>(x: Entry<A>, rest: seq<Entry<A>>)
    requires SortedByStart(rest)
    requires forall i :: 0 <= i < |rest| ==> x.start <= rest[i].start
    ensures SortedByStart([x] + rest)
  {
    var r := [x] + rest;
    forall i, j | 0 <= i < j < |r|
      ensures r[i].start <= r[j].start
    {
      assert r[j] == rest[j - 1];
      if i > 0 {
        assert r[i] == rest[i - 1];
      }
    }
  }

  /** Insertion keeps a sorted list sorted. */
  lemma {:induction false} InsertKeepsSorted<A>(e: Entry<A>, s: seq<Entry<A>>)
    requires SortedByStart(s)
    ensures SortedByStart(InsertByStart(e, s))
  {
    if s != [] && e.start > s[0].start {
      var tail := s[1..];
      forall i | 0 <= i < |tail|
        ensures s[0].start <= tail[i].start
      {
        assert tail[i] == s[i + 1];
      }
      InsertKeepsSorted(e, tail);
      InsertKeepsLowerBound(e, tail, s[0].start);
      ConsKeepsSorted(s[0], InsertByStart(e, tail));
    }
  }

  /** Insertion of an entry not in a list without repetitions gives a list without repetitions. */
  lemma {:induction false} InsertKeepsDistinct<A>(e: Entry<A>, s: seq<Entry<A>>)
    requires Distinct(s) && e !in s
    ensures Distinct(InsertByStart(e, s))
  {
    if s != [] && e.start > s[0].start {
      InsertKeepsDistinct(e, s[1..]);
      var rest := InsertByStart(e, s[1..]);
      forall i | 0 <= i < |rest|
        ensures rest[i] != s[0]
      {
        if rest[i] != e {
          var k :| 0 <= k < |s[1..]| && s[1..][k] == rest[i];
          assert s[k + 1] == rest[i];
        }
      }
    }
  }

  /**
   * `Collections.sort` with `compareByFirst`: the entries ordered by start
   * time, a permutation of the input.
   */
  function SortByStart<A>(s: seq<Entry<A>>): (r: seq<Entry<A>>)
    ensures |r| == |s|
    ensures multiset(r) == multiset(s)
    ensures SortedByStart(r)
  {
    if s == [] then []
    else
      assert s == [s[0]] + s[1..];
      var rest := SortByStart(s[1..]);
      InsertKeepsSorted(s[0], rest);
      InsertByStart(s[0], rest)
  }

  /** Two lists that are permutations of each other have the same members. */
  lemma SameMembers<T>(a: seq<T>, b: seq<T>)
    requires multiset(a) == multiset(b)
    ensures forall x :: x in a <==> x in b
  {
    forall x
      ensures x in a <==> x in b
    {
      assert x in a <==> x in multiset(a);
      assert x in b <==> x in multiset(b);
    }
  }

  /** Sorting a list without repetitions gives a list without repetitions. */
  lemma {:induction false} SortKeepsDistinct<A>(s: seq<Entry<A>>)
    requires Distinct(s)
    ensures Distinct(SortByStart(s))
  {
    if s != [] {
      SortKeepsDistinct(s[1..]);
      var rest := SortByStart(s[1..]);
      SameMembers(s[1..], rest);
      assert s[0] !in rest;
      InsertKeepsDistinct(s[0], rest);
    }
  }

  /* ---------------------------------------------------------------------- */
  /* Status groups and messages                                              */
  /* ---------------------------------------------------------------------- */

  /** Java's `long` division, which truncates toward zero. */
  function JavaDiv(a: int, b: int): (q: int)
    requires b > 0
    // the quotient is rounded toward zero: the remainder takes the sign of the dividend
    ensures a >= 0 ==> 0 <= a - q * b < b
    ensures a < 0 ==> -b < a - q * b <= 0
  {
    if a >= 0 then a / b else -((-a) / b)
  }

  /** Whole seconds an action has spent in its status. */
  function Seconds(currentTime: int, start: int): int {
    JavaDiv(currentTime - start, NANOS_PER_SECOND)
  }

  /** One listed action: its progress message stands for the action, with its running time. */
  datatype JobLine<A> = JobLine(action: A, seconds: int)

  /** A status heading, its listed actions and the count behind "... n more jobs" (0 for none). */
  datatype Group<A> = Group(status: string, lines: seq<JobLine<A>>, moreJobs: nat)

  /** The first line of the message: "1 job" or "<count> jobs". */
  datatype Header = OneJob | Jobs(count: nat)

  datatype StatusMessage<A> = StatusMessage(header: Header, groups: seq<Group<A>>)

  /** The actions whose status is `status`. */
  ghost function Members<A>(statusMap: map<A, Status>, status: string): set<A> {
    set a | a in statusMap && statusMap[a].message == status
  }

  /** The distinct statuses in the table. */
  ghost function Statuses<A>(statusMap: map<A, Status>): set<string> {
    set a | a in statusMap :: statusMap[a].message
  }

  ghost function Listed<A>(g: Group<A>): set<A> {
    set l | l in g.lines :: l.action
  }

  /**
   * `g` is the group of `status`: actions of that status, each once, by
   * ascending start time, with their running times; all of them when there
   * are at most `MAX_LINES`, otherwise the earliest `MAX_LINES - 1` and the
   * count of the rest.
   */
  ghost predicate IsGroupOf<A>(g: Group<A>, statusMap: map<A, Status>, status: string, currentTime: int) {
    var members := Members(statusMap, status);
    && g.status == status
    && (forall i :: 0 <= i < |g.lines| ==>
          g.lines[i].action in members &&
          g.lines[i].seconds == Seconds(currentTime, statusMap[g.lines[i].action].startTime))
    && (forall i, j :: 0 <= i < j < |g.lines| ==> g.lines[i].action != g.lines[j].action)
    && (forall i, j :: 0 <= i < j < |g.lines| ==>
          statusMap[g.lines[i].action].startTime <= statusMap[g.lines[j].action].startTime)
    && |g.lines| + g.moreJobs == |members|
    && (|members| <= MAX_LINES ==> Listed(g) == members && g.moreJobs == 0)
    && (|members| > MAX_LINES ==> |g.lines| == MAX_LINES - 1)
    && (forall a, i :: a in members && a !in Listed(g) && 0 <= i < |g.lines| ==>
          statusMap[g.lines[i].action].startTime <= statusMap[a].startTime)
  }

  /** The statuses heading the groups. */
  ghost function GroupStatuses<A>(groups: seq<Group<A>>): set<string> {
    set g | g in groups :: g.status
  }

  /** Each group is the group of its own status. */
  ghost predicate GroupsOf<A>(groups: seq<Group<A>>, statusMap: map<A, Status>, currentTime: int) {
    forall i :: 0 <= i < |groups| ==> IsGroupOf(groups[i], statusMap, groups[i].status, currentTime)
  }

  /**
   * The message for a table: the header counts the entries, and each status
   * present has one group, in increasing string order.
   */
  ghost predicate IsStatusMessage<A>(msg: StatusMessage<A>, statusMap: map<A, Status>, currentTime: int) {
    && msg.header == (if |statusMap| == 1 then OneJob else Jobs(|statusMap|))
    && (forall i, j :: 0 <= i < j < |msg.groups| ==> StringLess(msg.groups[i].status, msg.groups[j].status))
    && GroupStatuses(msg.groups) == Statuses(statusMap)
    && GroupsOf(msg.groups, statusMap, currentTime)
  }

  /** The entries of `status`, collected in arbitrary (hash) order. */
  method CollectEntries<A>(statusMap: map<A, Status>, status: string) returns (actions: seq<Entry<A>>)
    ensures forall e :: e in actions <==>
              e.action in Members(statusMap, status) && e.start == statusMap[e.action].startTime
    ensures Distinct(actions)
    ensures |actions| == |Members(statusMap, status)|
  {
    actions := [];
    var keys := statusMap.Keys;
    while keys != {}
      invariant keys <= statusMap.Keys
      invariant forall e :: e in actions ==>
                  e.action in Members(statusMap, status) && e.action !in keys &&
                  e.start == statusMap[e.action].startTime
      invariant forall a :: a in Members(statusMap, status) && a !in keys ==>
                  Entry(statusMap[a].startTime, a) in actions
      invariant Distinct(actions)
      invariant |actions| == |Members(statusMap, status) - keys|
      decreases keys
    {
      var a :| a in keys;
      if statusMap[a].message == status {
        assert Members(statusMap, status) - (keys - {a}) == (Members(statusMap, status) - keys) + {a};
        actions := actions + [Entry(statusMap[a].startTime, a)];
      } else {
        assert Members(statusMap, status) - (keys - {a}) == Members(statusMap, status) - keys;
      }
      keys := keys - {a};
    }
  }

  /** The loop of `appendGroupStatus`: a line for each of the first `shown` entries, in order. */
  method JobLines<A>(sorted: seq<Entry<A>>, shown: nat, currentTime: int) returns (lines: seq<JobLine<A>>)
    requires shown <= |sorted|
    ensures |lines| == shown
    ensures forall j :: 0 <= j < shown ==>
              lines[j] == JobLine(sorted[j].action, Seconds(currentTime, sorted[j].start))
  {
    lines := [];
    for i := 0 to shown
      invariant |lines| == i
      invariant forall j :: 0 <= j < i ==>
                  lines[j] == JobLine(sorted[j].action, Seconds(currentTime, sorted[j].start))
    {
      lines := lines + [JobLine(sorted[i].action, Seconds(currentTime, sorted[i].start))];
    }
  }

  /**
   * `appendGroupStatus`: the group of `status`, or nothing at all when no
   * action has that status.
   */
  method AppendGroupStatus<A>(statusMap: map<A, Status>, status: string, currentTime: int)
    returns (g: Option<Group<A>>)
    ensures g.None? <==> Members(statusMap, status) == {}
    ensures g.Some? ==> IsGroupOf(g.value, statusMap, status, currentTime)
  {
    var actions := CollectEntries(statusMap, status);
    if |actions| == 0 {
      return None;
    }
    var sorted := SortByStart(actions);
    SortKeepsDistinct(actions);
    var truncateList := |sorted| > MAX_LINES;
    var shown := if truncateList then MAX_LINES - 1 else |sorted|;
    var lines := JobLines(sorted, shown, currentTime);
    var group := Group(status, lines, if truncateList then |sorted| - MAX_LINES + 1 else 0);
    SameMembers(actions, sorted);
    GroupProperties(statusMap, status, currentTime, actions, sorted, group);
    return Some(group);
  }

  /** `sorted` holds each action of `status` once, with its start time, by ascending start time. */
  ghost predicate SortedMembers<A>(statusMap: map<A, Status>, status: string, sorted: seq<Entry<A>>) {
    && (forall i :: 0 <= i < |sorted| ==>
          sorted[i].action in Members(statusMap, status) && sorted[i].start == statusMap[sorted[i].action].startTime)
    && (forall a :: a in Members(statusMap, status) ==> Entry(statusMap[a].startTime, a) in sorted)
    && Distinct(sorted)
    && SortedByStart(sorted)
  }

  /** The lines list the first entries of `sorted`, with their running times. */
  ghost predicate ListsPrefix<A>(g: Group<A>, sorted: seq<Entry<A>>, currentTime: int) {
    && |g.lines| <= |sorted|
    && forall j :: 0 <= j < |g.lines| ==>
         g.lines[j] == JobLine(sorted[j].action, Seconds(currentTime, sorted[j].start))
  }

  /** The listed actions have the status, each once, with their own start times. */
  lemma ListedAreMembers<A>(statusMap: map<A, Status>, status: string, sorted: seq<Entry<A>>, g: Group<A>, currentTime: int)
    requires SortedMembers(statusMap, status, sorted) && ListsPrefix(g, sorted, currentTime)
    ensures forall i :: 0 <= i < |g.lines| ==>
              g.lines[i].action in Members(statusMap, status) &&
              sorted[i].start == statusMap[g.lines[i].action].startTime
    ensures forall i, j :: 0 <= i < j < |g.lines| ==> g.lines[i].action != g.lines[j].action
  {
    forall i | 0 <= i < |g.lines|
      ensures g.lines[i].action in Members(statusMap, status)
      ensures sorted[i].start == statusMap[g.lines[i].action].startTime
    {
      assert sorted[i] in sorted;
    }
    forall i, j | 0 <= i < j < |g.lines|
      ensures g.lines[i].action != g.lines[j].action
    {
      assert sorted[i] in sorted && sorted[j] in sorted;
      assert sorted[i] != sorted[j];
    }
  }

  /** An action left out of the listing starts no earlier than any listed one. */
  lemma UnlistedStartLater<A>(statusMap: map<A, Status>, status: string, sorted: seq<Entry<A>>, g: Group<A>, currentTime: int)
    requires SortedMembers(statusMap, status, sorted) && ListsPrefix(g, sorted, currentTime)
    ensures forall a, i :: a in Members(statusMap, status) && a !in Listed(g) && 0 <= i < |g.lines| ==>
              statusMap[g.lines[i].action].startTime <= statusMap[a].startTime
  {
    forall a, i | a in Members(statusMap, status) && a !in Listed(g) && 0 <= i < |g.lines|
      ensures statusMap[g.lines[i].action].startTime <= statusMap[a].startTime
    {
      var e := Entry(statusMap[a].startTime, a);
      assert e in sorted;
      var k :| 0 <= k < |sorted| && sorted[k] == e;
      assert forall j :: 0 <= j < |g.lines| ==> g.lines[j] in g.lines;
      assert i < k;
      assert sorted[i] in sorted;
    }
  }

  /** A listing of all the sorted entries lists every action of the status. */
  lemma FullListing<A>(statusMap: map<A, Status>, status: string, sorted: seq<Entry<A>>, g: Group<A>, currentTime: int)
    requires SortedMembers(statusMap, status, sorted) && ListsPrefix(g, sorted, currentTime)
    requires |g.lines| == |sorted|
    ensures forall a :: a in Members(statusMap, status) ==> a in Listed(g)
  {
    forall a | a in Members(statusMap, status)
      ensures a in Listed(g)
    {
      var e := Entry(statusMap[a].startTime, a);
      assert e in sorted;
      var k :| 0 <= k < |sorted| && sorted[k] == e;
      assert g.lines[k] in g.lines;
    }
  }

  /** The listed prefix of the sorted entries is a group of `status`. */
  lemma GroupProperties<A>(
    statusMap: map<A, Status>, status: string, currentTime: int,
    actions: seq<Entry<A>>, sorted: seq<Entry<A>>, g: Group<A>)
    requires forall e :: e in actions <==>
               e.action in Members(statusMap, status) && e.start == statusMap[e.action].startTime
    requires Distinct(actions) && |actions| == |Members(statusMap, status)| && |actions| > 0
    requires |sorted| == |actions| && (forall x :: x in sorted <==> x in actions)
    requires SortedByStart(sorted) && Distinct(sorted)
    requires g.status == status
    requires |g.lines| == (if |sorted| > MAX_LINES then MAX_LINES - 1 else |sorted|)
    requires g.moreJobs == (if |sorted| > MAX_LINES then |sorted| - MAX_LINES + 1 else 0)
    requires forall j :: 0 <= j < |g.lines| ==>
               g.lines[j] == JobLine(sorted[j].action, Seconds(currentTime, sorted[j].start))
    ensures IsGroupOf(g, statusMap, status, currentTime)
  {
    forall i | 0 <= i < |sorted|
      ensures sorted[i].action in Members(statusMap, status)
      ensures sorted[i].start == statusMap[sorted[i].action].startTime
    {
      assert sorted[i] in actions;
    }
    assert SortedMembers(statusMap, status, sorted);
    assert ListsPrefix(g, sorted, currentTime);
    ListedAreMembers(statusMap, status, sorted, g, currentTime);
    UnlistedStartLater(statusMap, status, sorted, g, currentTime);
    if |sorted| <= MAX_LINES {
      FullListing(statusMap, status, sorted, g, currentTime);
      assert Listed(g) == Members(statusMap, status);
    }
  }

  /** The statuses of the table, gathered into a set. */
  method CollectStatuses<A>(statusMap: map<A, Status>) returns (statuses: set<string>)
    ensures statuses == Statuses(statusMap)
  {
    statuses := {};
    var keys := statusMap.Keys;
    while keys != {}
      invariant keys <= statusMap.Keys
      invariant statuses == set a | a in statusMap && a !in keys :: statusMap[a].message
      decreases keys
    {
      var a :| a in keys;
      statuses := statuses + {statusMap[a].message};
      keys := keys - {a};
    }
  }

  /**
   * Appending the group of the least remaining status keeps the groups in
   * increasing string order, before every status still remaining, and each
   * the group of its own status.
   */
  lemma NextGroup<A>(groups: seq<Group<A>>, g: Group<A>, statuses: set<string>, remaining: set<string>,
                     status: string, statusMap: map<A, Status>, currentTime: int)
    requires remaining <= statuses && status in remaining
    requires forall t :: t in remaining && t != status ==> StringLess(status, t)
    requires forall i, j :: 0 <= i < j < |groups| ==> StringLess(groups[i].status, groups[j].status)
    requires forall i, s :: 0 <= i < |groups| && s in remaining ==> StringLess(groups[i].status, s)
    requires GroupStatuses(groups) == statuses - remaining
    requires GroupsOf(groups, statusMap, currentTime)
    requires IsGroupOf(g, statusMap, status, currentTime)
    ensures var next := groups + [g];
            && (forall i, j :: 0 <= i < j < |next| ==> StringLess(next[i].status, next[j].status))
            && (forall i, s :: 0 <= i < |next| && s in remaining - {status} ==> StringLess(next[i].status, s))
            && GroupStatuses(next) == statuses - (remaining - {status})
            && GroupsOf(next, statusMap, currentTime)
  {
    var next := groups + [g];
    assert GroupStatuses(next) == GroupStatuses(groups) + {status};
    forall i | 0 <= i < |next|
      ensures IsGroupOf(next[i], statusMap, next[i].status, currentTime)
    {
      if i < |groups| {
        assert next[i] == groups[i];
      }
    }
  }

  /**
   * `getExecutionStatusMessage`: the header, then the group of each distinct
   * status, visiting the statuses in sorted order.
   */
  method GetExecutionStatusMessage<A>(statusMap: map<A, Status>, currentTime: int)
    returns (msg: StatusMessage<A>)
    ensures IsStatusMessage(msg, statusMap, currentTime)
  {
    var header := if |statusMap| != 1 then Jobs(|statusMap|) else OneJob;
    var statuses := CollectStatuses(statusMap);
    var groups: seq<Group<A>> := [];
    var remaining := statuses;
    while remaining != {}
      invariant remaining <= statuses
      invariant forall i, j :: 0 <= i < j < |groups| ==> StringLess(groups[i].status, groups[j].status)
      invariant forall i, s :: 0 <= i < |groups| && s in remaining ==> StringLess(groups[i].status, s)
      invariant GroupStatuses(groups) == statuses - remaining
      invariant GroupsOf(groups, statusMap, currentTime)
      decreases remaining
    {
      LeastStringExists(remaining);
      var status :| status in remaining && forall t :: t in remaining && t != status ==> StringLess(status, t);
      var a :| a in statusMap && statusMap[a].message == status;
      assert a in Members(statusMap, status);
      var g := AppendGroupStatus(statusMap, status, currentTime);
      NextGroup(groups, g.value, statuses, remaining, status, statusMap, currentTime);
      groups := groups + [g.value];
      remaining := remaining - {status};
    }
    msg := StatusMessage(header, groups);
  }

  /** `getWaitTime`: the user's interval when positive, else 10, then 30, then 60 seconds. */
  function WaitTime(userSpecifiedProgressInterval: int, previousWaitTime: int): (r: int)
    ensures userSpecifiedProgressInterval > 0 ==> r == userSpecifiedProgressInterval
    ensures userSpecifiedProgressInterval <= 0 ==> r in {10, 30, 60}
  {
    if userSpecifiedProgressInterval > 0 then userSpecifiedProgressInterval
    else if previousWaitTime == 0 then 10
    else if previousWaitTime == 10 then 30
    else 60
  }

  /** The wait time after `n` reports without a user interval, starting from 0. */
  function DefaultWaitTime(n: nat): int {
    if n == 0 then 0 else WaitTime(0, DefaultWaitTime(n - 1))
  }

  /** Without a user interval the schedule is 10, 30, and then 60 for ever. */
  lemma {:induction false} DefaultScheduleSettles(n: nat)
    ensures n == 1 ==> DefaultWaitTime(n) == 10
    ensures n == 2 ==> DefaultWaitTime(n) == 30
    ensures n >= 3 ==> DefaultWaitTime(n) == 60
  {
    if n >= 2 {
      DefaultScheduleSettles(n - 1);
    }
  }

  /** What `warnAboutCurrentlyExecutingActions` tells the user. */
  datatype Warning<A> =
    | NoActiveJobs
    | StillWaitingUnfinished
    | Listing(message: StatusMessage<A>)

  /** A progress event: the caller's percentage text followed by the status message. */
  datatype Progress<A> = Progress(prefix: string, message: StatusMessage<A>)

  /** The table without its `PREPARING` entries. */
  ghost function WithoutPreparing<A>(statusMap: map<A, Status>): map<A, Status> {
    map a | a in statusMap && statusMap[a].message != PREPARING :: statusMap[a]
  }

  /** Returned by `Remove` for an action that was not in flight (the failed `checkNotNull`). */
  datatype NotInFlight = NotInFlight

  /** The reporter: the status of each in-flight action. */
  class ActionExecutionStatusReporter<A(==)> {
    var actionStatus: map<A, Status>

    constructor()
      ensures actionStatus == map[]
    {
      actionStatus := map[];
    }

    /** `getCount`: the number of in-flight actions. */
    function Count(): nat
      reads this
    {
      |actionStatus|
    }

    /** `setStatus`: the action's entry becomes (message, now); the others are unchanged. */
    method SetStatus(action: A, message: string, now: int)
      modifies this
      ensures actionStatus == old(actionStatus)[action := Status(message, now)]
      ensures actionStatus[action] == Status(message, now)
      ensures forall b :: b != action ==> (b in actionStatus <==> b in old(actionStatus))
      ensures forall b :: b != action && b in actionStatus ==> actionStatus[b] == old(actionStatus)[b]
      ensures Count() == old(Count()) + (if action in old(actionStatus) then 0 else 1)
    {
      actionStatus := actionStatus[action := Status(message, now)];
    }

    /** `remove`: fails unless the action is in flight; otherwise drops its entry alone. */
    method Remove(action: A) returns (r: Result<(), NotInFlight>)
      modifies this
      ensures r.Ok? <==> action in old(actionStatus)
      ensures actionStatus == old(actionStatus) - {action}
      ensures r.Ok? ==> Count() == old(Count()) - 1
      ensures r.Err? ==> actionStatus == old(actionStatus)
    {
      var present := action in actionStatus;
      if present {
        assert actionStatus.Keys - {action} == (actionStatus - {action}).Keys;
      }
      actionStatus := actionStatus - {action};
      if !present {
        return Err(NotInFlight);
      }
      return Ok(());
    }

    /** `setPreparing`. */
    method SetPreparing(action: A, now: int)
      modifies this
      ensures actionStatus == old(actionStatus)[action := Status(PREPARING, now)]
    {
      SetStatus(action, PREPARING, now);
    }

    /** `setRunningFromBuildData`: "Running (strategy)" when the action describes a strategy, else no change. */
    method SetRunningFromBuildData(action: A, strategy: Option<string>, now: int)
      modifies this
      ensures strategy.Some? ==>
                actionStatus == old(actionStatus)[action := Status("Running (" + strategy.value + ")", now)]
      ensures strategy.None? ==> actionStatus == old(actionStatus)
    {
      if strategy.Some? {
        SetStatus(action, "Running (" + strategy.value + ")", now);
      }
    }

    /** `updateLocality`: the message of a locality event becomes the action's status. */
    method UpdateLocality(action: A, message: string, now: int)
      modifies this
      ensures actionStatus == old(actionStatus)[action := Status(message, now)]
    {
      SetStatus(action, message, now);
    }

    /** `setScheduling`. */
    method SetScheduling(action: A, now: int)
      modifies this
      ensures actionStatus == old(actionStatus)[action := Status(SCHEDULING, now)]
    {
      SetStatus(action, SCHEDULING, now);
    }

    /** `showCurrentlyExecutingActions`: a progress event for a non-empty table, nothing otherwise. */
    method ShowCurrentlyExecutingActions(progressPercentageMessage: string, currentTime: int)
      returns (p: Option<Progress<A>>)
      ensures p.None? <==> actionStatus == map[]
      ensures p.Some? ==>
                p.value.prefix == progressPercentageMessage &&
                IsStatusMessage(p.value.message, actionStatus, currentTime)
    {
      var statusMap := actionStatus;
      if |statusMap| > 0 {
        var msg := GetExecutionStatusMessage(statusMap, currentTime);
        return Some(Progress(progressPercentageMessage, msg));
      }
      return None;
    }

    /**
     * `warnAboutCurrentlyExecutingActions`: no active jobs, only actions
     * still preparing, or the message for the actions past preparation.
     */
    method WarnAboutCurrentlyExecutingActions(currentTime: int) returns (w: Warning<A>)
      ensures w.NoActiveJobs? <==> actionStatus == map[]
      ensures w.StillWaitingUnfinished? <==>
                actionStatus != map[] && forall a :: a in actionStatus ==> actionStatus[a].message == PREPARING
      ensures w.Listing? ==>
                && IsStatusMessage(w.message, WithoutPreparing(actionStatus), currentTime)
                && forall i :: 0 <= i < |w.message.groups| ==> w.message.groups[i].status != PREPARING
    {
      var statusMap := actionStatus;
      if |statusMap| == 0 {
        return NoActiveJobs;
      }
      var keys := statusMap.Keys;
      while keys != {}
        invariant keys <= statusMap.Keys
        invariant statusMap == map a | a in actionStatus && (a in keys || actionStatus[a].message != PREPARING) :: actionStatus[a]
        decreases keys
      {
        var a :| a in keys;
        if statusMap[a].message == PREPARING {
          statusMap := statusMap - {a};
        }
        keys := keys - {a};
      }
      assert statusMap == WithoutPreparing(actionStatus);
      if |statusMap| > 0 {
        var msg := GetExecutionStatusMessage(statusMap, currentTime);
        forall i | 0 <= i < |msg.groups|
          ensures msg.groups[i].status != PREPARING
        {
          assert msg.groups[i] in msg.groups;
          assert msg.groups[i].status in Statuses(statusMap);
        }
        return Listing(msg);
      }
      forall a | a in actionStatus
        ensures actionStatus[a].message == PREPARING
      {
        assert a !in statusMap;
      }
      return StillWaitingUnfinished;
    }
  }
}
