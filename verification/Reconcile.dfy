/**
 The local session listing settled against the hosts the account reports
 (internal/cli/discover.go), and the strays doctor keeps of it
 (internal/cli/doctor.go). Times are in minutes.
 */
module Reconcile {
  import opened Wrappers

  datatype Mode = Local | Aws | Offline

  /** notes stands for the fields of a record none of this reads. */
  datatype Session = Session(
    seed: string, mode: Mode, ended: bool, host: string, ttl: int,
    createdAt: int, provisionedAt: Option<int>, notes: string)

  datatype Host = Host(seed: string, problem: string, state: string, launchedAt: int, ttl: int)

  datatype Label =
    | Provisioning | HoldingDisk | PastTtl | UpWithTtl(left: int) | Up | StillUpAfterEnd | HostGone
    | Other(text: string)

  /** Stranded is the rank the account and the registry disagree at; it sorts first. */
  datatype Rank = Stranded | Live | Lower(n: nat)

  datatype Status = Status(what: Label, rank: Rank)

  datatype Row = Row(s: Session, status: Status, elsewhere: bool)

  /** What a workdir or an offline stage says; none of it is stranded. */
  type Derive = Session -> (string, nat)

  function WithTtl(from: int, ttl: int, now: int): Status {
    if ttl <= 0 then Status(Up, Live)
    else if from + ttl - now <= 0 then Status(PastTtl, Stranded)
    else Status(UpWithTtl(from + ttl - now), Live)
  }

  /** remoteHost.status. */
  function HostStatus(h: Host, now: int): Status {
    if h.state == "pending" then Status(Provisioning, Live)
    else if h.state == "stopping" || h.state == "stopped" then Status(HoldingDisk, Stranded)
    else WithTtl(h.launchedAt, h.ttl, now)
  }

  function SessionStatus(s: Session, derive: Derive, now: int): Status {
    var derived := derive(s);
    if s.mode.Offline? then Status(Other(derived.0), Lower(derived.1))
    else if s.ended then Status(Other("ended"), Lower(0))
    else if s.mode.Aws? then
      if s.host == "" then Status(Provisioning, Live)
      else WithTtl(if s.provisionedAt.Some? then s.provisionedAt.value else s.createdAt, s.ttl, now)
    else Status(Other(derived.0), Lower(derived.1))
  }

  function LocalRow(s: Session, derive: Derive, now: int): Row {
    Row(s, SessionStatus(s, derive, now), false)
  }

  /** The host with this seed the account listed last. */
  function HostOf(hosts: seq<Host>, seed: string): (h: Option<Host>)
    ensures h.Some? ==> h.value in hosts && h.value.seed == seed
    ensures h.Some? ==> exists k | 0 <= k < |hosts| :: hosts[k] == h.value && NoneBehind(hosts, k)
    ensures h.None? <==> forall k | 0 <= k < |hosts| :: hosts[k].seed != seed
  {
    if hosts == [] then None
    else if hosts[|hosts| - 1].seed == seed then Some(hosts[|hosts| - 1])
    else HostOf(hosts[..|hosts| - 1], seed)
  }

  predicate NoneBehind(hosts: seq<Host>, k: nat)
    requires k < |hosts|
  {
    forall j | k < j < |hosts| :: hosts[j].seed != hosts[k].seed
  }

  function Settled(r: Row, hosts: seq<Host>, now: int): Row {
    var h := HostOf(hosts, r.s.seed);
    if !r.s.mode.Aws? then r
    else if r.s.ended then
      if h.Some? then r.(status := Status(StillUpAfterEnd, Stranded)) else r
    else if h.Some? then r.(status := HostStatus(h.value, now))
    else if r.s.host != "" then r.(status := Status(HostGone, Stranded))
    else r
  }

  function HostRow(h: Host, known: map<string, Session>, now: int): Row {
    if h.seed in known then Row(known[h.seed], Status(StillUpAfterEnd, Stranded), false)
    else Row(Session(h.seed, Aws, false, "", 0, h.launchedAt, None, h.problem), HostStatus(h, now), true)
  }

  predicate Shown(rows: seq<Row>, seed: string) {
    exists i | 0 <= i < |rows| :: rows[i].s.seed == seed
  }

  /** A row for each of the first k hosts no row here claims. */
  function Unclaimed(rows: seq<Row>, known: map<string, Session>, hosts: seq<Host>, k: nat, now: int): seq<Row>
    requires k <= |hosts|
  {
    if k == 0 then []
    else if Shown(rows, hosts[k - 1].seed) then Unclaimed(rows, known, hosts, k - 1, now)
    else Unclaimed(rows, known, hosts, k - 1, now) + [HostRow(hosts[k - 1], known, now)]
  }

  /** Settles the rows in place, then adds the hosts none of them claims. */
  method Settle(rows: seq<Row>, known: map<string, Session>, hosts: seq<Host>, now: int) returns (out: seq<Row>)
    ensures |rows| <= |out|
    ensures forall i | 0 <= i < |rows| :: out[i] == Settled(rows[i], hosts, now)
    ensures out[|rows|..] == Unclaimed(rows, known, hosts, |hosts|, now)
  {
    var byseed: map<string, Host> := map[];
    for k := 0 to |hosts|
      invariant forall seed :: (seed in byseed <==> HostOf(hosts[..k], seed).Some?)
      invariant forall seed | seed in byseed :: HostOf(hosts[..k], seed) == Some(byseed[seed])
    {
      assert hosts[..k + 1][..k] == hosts[..k];
      byseed := byseed[hosts[k].seed := hosts[k]];
    }
    assert hosts[..|hosts|] == hosts;
    var shown: set<string> := {};
    out := rows;
    for i := 0 to |rows|
      invariant |out| == |rows|
      invariant forall seed :: seed in shown <==> exists j | 0 <= j < i :: rows[j].s.seed == seed
      invariant forall j | 0 <= j < i :: out[j] == Settled(rows[j], hosts, now)
      invariant forall j | i <= j < |rows| :: out[j] == rows[j]
    {
      var r := out[i];
      shown := shown + {r.s.seed};
      if r.s.mode != Aws {
        continue;
      }
      assert r.s.seed in byseed <==> HostOf(hosts, r.s.seed).Some?;
      if r.s.ended {
        if r.s.seed in byseed {
          out := out[i := r.(status := Status(StillUpAfterEnd, Stranded))];
        }
      } else if r.s.seed in byseed {
        out := out[i := r.(status := HostStatus(byseed[r.s.seed], now))];
      } else if r.s.host != "" {
        out := out[i := r.(status := Status(HostGone, Stranded))];
      }
    }
    out := AddHosts(out, shown, rows, known, hosts, now);
  }

  method AddHosts(settled: seq<Row>, shown: set<string>, ghost rows: seq<Row>, known: map<string, Session>,
                  hosts: seq<Host>, now: int)
    returns (out: seq<Row>)
    requires |settled| == |rows| && forall seed :: seed in shown <==> Shown(rows, seed)
    ensures out == settled + Unclaimed(rows, known, hosts, |hosts|, now)
  {
    out := settled;
    for k := 0 to |hosts|
      invariant out == settled + Unclaimed(rows, known, hosts, k, now)
    {
      var h := hosts[k];
      if h.seed in shown {
        continue;
      }
      var row := Row(Session(h.seed, Aws, false, "", 0, h.launchedAt, None, h.problem), HostStatus(h, now), false);
      if h.seed in known {
        row := Row(known[h.seed], Status(StillUpAfterEnd, Stranded), false);
      } else {
        row := row.(elsewhere := true);
      }
      Regroup(settled, Unclaimed(rows, known, hosts, k, now), [row]);
      out := out + [row];
    }
  }

  // ---------------------------------------------------------------- what settling says

  /** The account and the record disagree about a provisioned session, and the row says so. */
  lemma DisagreementsAreStranded(r: Row, hosts: seq<Host>, now: int)
    requires r.s.mode.Aws?
    ensures var up, after := HostOf(hosts, r.s.seed).Some?, Settled(r, hosts, now);
            && after.s == r.s && after.elsewhere == r.elsewhere
            && (up && r.s.ended ==> after.status == Status(StillUpAfterEnd, Stranded))
            && (!up && !r.s.ended && r.s.host != "" ==> after.status == Status(HostGone, Stranded))
            && (!up && (r.s.ended || r.s.host == "") ==> after == r)
            && (up && !r.s.ended ==>
                  var h := HostOf(hosts, r.s.seed).value;
                  after.status.rank.Stranded? <==>
                    || h.state == "stopping" || h.state == "stopped"
                    || (h.state != "pending" && h.ttl > 0 && now >= h.launchedAt + h.ttl))
  {
  }

  /** Other sessions are nobody's business here. */
  lemma OnlyProvisionedSettle(r: Row, hosts: seq<Host>, now: int)
    requires r.s.mode != Aws
    ensures Settled(r, hosts, now) == r
  {
  }

  /** What a listing says of a session by itself is stranded for one case only: provisioned, open, past its ttl. */
  lemma ListedStranded(s: Session, derive: Derive, now: int)
    ensures SessionStatus(s, derive, now).rank == Stranded <==>
      && s.mode == Aws && !s.ended && s.host != "" && s.ttl > 0
      && now >= (if s.provisionedAt.Some? then s.provisionedAt.value else s.createdAt) + s.ttl
    ensures SessionStatus(s, derive, now).what.UpWithTtl? ==>
      SessionStatus(s, derive, now).what.left
        == (if s.provisionedAt.Some? then s.provisionedAt.value else s.createdAt) + s.ttl - now
    ensures s.ended && s.mode != Offline ==> SessionStatus(s, derive, now).what == Other("ended")
  {
  }

  /** An unclaimed host: of a session known here it is one that ended, of any other it belongs elsewhere. */
  lemma HostRowMeans(h: Host, known: map<string, Session>, now: int)
    ensures var r := HostRow(h, known, now);
            && (h.seed in known ==> r.s == known[h.seed] && r.status.rank == Stranded && !r.elsewhere)
            && (h.seed !in known ==>
                  r.s.seed == h.seed && r.s.mode == Aws && !r.s.ended && r.s.createdAt == h.launchedAt && r.elsewhere)
  {
  }

  /** The rows added are, in host order, one for every host no listed session claims. */
  lemma {:induction false} UnclaimedMeans(rows: seq<Row>, known: map<string, Session>, hosts: seq<Host>, k: nat,
                                          now: int)
    requires k <= |hosts|
    ensures forall x :: x in Unclaimed(rows, known, hosts, k, now) <==>
              exists i | 0 <= i < k :: !Shown(rows, hosts[i].seed) && x == HostRow(hosts[i], known, now)
    ensures forall x | x in Unclaimed(rows, known, hosts, k, now) :: IsStray(x)
  {
    if k > 0 {
      UnclaimedMeans(rows, known, hosts, k - 1, now);
    }
  }

  // ---------------------------------------------------------------- strays

  /** Listed sessions, ended ones only when asked for, and every seed ever recorded here. */
  method LocalRows(list: seq<Session>, all: bool, derive: Derive, now: int)
    returns (rows: seq<Row>, known: map<string, Session>)
    ensures rows == Listed(list, all, derive, now, |list|)
    ensures known == Known(list, |list|)
  {
    known := map[];
    for i := 0 to |list|
      invariant known == Known(list, i)
    {
      known := known[list[i].seed := list[i]];
    }
    rows := [];
    for i := 0 to |list|
      invariant rows == Listed(list, all, derive, now, i)
    {
      if all || !list[i].ended {
        rows := rows + [Row(list[i], SessionStatus(list[i], derive, now), false)];
      }
    }
  }

  function Known(list: seq<Session>, n: nat): map<string, Session>
    requires n <= |list|
  {
    if n == 0 then map[] else Known(list, n - 1)[list[n - 1].seed := list[n - 1]]
  }

  function Listed(list: seq<Session>, all: bool, derive: Derive, now: int, n: nat): seq<Row>
    requires n <= |list|
  {
    if n == 0 then []
    else if all || !list[n - 1].ended then Listed(list, all, derive, now, n - 1) + [LocalRow(list[n - 1], derive, now)]
    else Listed(list, all, derive, now, n - 1)
  }

  predicate IsStray(r: Row) {
    r.status.rank.Stranded? || r.elsewhere
  }

  /** What a listing settles to, the rows that demand action only. */
  ghost function Strays(list: seq<Session>, all: bool, derive: Derive, hosts: seq<Host>, now: int): iset<Row> {
    var rows := Listed(list, all, derive, now, |list|);
    iset x | IsStray(x)
             && ((exists i | 0 <= i < |rows| :: x == Settled(rows[i], hosts, now))
                 || x in Unclaimed(rows, Known(list, |list|), hosts, |hosts|, now))
  }

  /** The rows a listing settles to, in order. */
  function SettledRows(list: seq<Session>, all: bool, derive: Derive, hosts: seq<Host>, now: int): seq<Row> {
    var rows := Listed(list, all, derive, now, |list|);
    seq(|rows|, i requires 0 <= i < |rows| => Settled(rows[i], hosts, now))
    + Unclaimed(rows, Known(list, |list|), hosts, |hosts|, now)
  }

  /** The strays among the first n rows, in order. */
  function StraysOf(rows: seq<Row>, n: nat): seq<Row>
    requires n <= |rows|
  {
    if n == 0 then []
    else if IsStray(rows[n - 1]) then StraysOf(rows, n - 1) + [rows[n - 1]]
    else StraysOf(rows, n - 1)
  }

  /** Doctor reads the listing without the ended sessions and keeps the strays, in order. */
  method StrayHosts(list: seq<Session>, derive: Derive, hosts: seq<Host>, now: int) returns (strays: seq<Row>)
    ensures var rows := SettledRows(list, false, derive, hosts, now);
            strays == StraysOf(rows, |rows|)
    ensures (iset x | x in strays) == Strays(list, false, derive, hosts, now)
  {
    var rows, known := LocalRows(list, false, derive, now);
    var out := Settle(rows, known, hosts, now);
    assert out == out[..|rows|] + out[|rows|..];
    assert out == SettledRows(list, false, derive, hosts, now);
    strays := [];
    for i := 0 to |out|
      invariant strays == StraysOf(out, i)
    {
      if IsStray(out[i]) {
        strays := strays + [out[i]];
      }
    }
    StraysAre(list, false, derive, hosts, now);
  }

  lemma {:induction false} StraysOfMeans(rows: seq<Row>, n: nat)
    requires n <= |rows|
    ensures forall x :: x in StraysOf(rows, n) <==> IsStray(x) && exists j | 0 <= j < n :: rows[j] == x
  {
    if n > 0 {
      StraysOfMeans(rows, n - 1);
    }
  }

  lemma StraysAre(list: seq<Session>, all: bool, derive: Derive, hosts: seq<Host>, now: int)
    ensures var rows := SettledRows(list, all, derive, hosts, now);
            (iset x | x in StraysOf(rows, |rows|)) == Strays(list, all, derive, hosts, now)
  {
    var listed := Listed(list, all, derive, now, |list|);
    var settled := seq(|listed|, i requires 0 <= i < |listed| => Settled(listed[i], hosts, now));
    var unclaimed := Unclaimed(listed, Known(list, |list|), hosts, |hosts|, now);
    var rows := SettledRows(list, all, derive, hosts, now);
    assert rows == settled + unclaimed;
    StraysOfMeans(rows, |rows|);
    forall x
      ensures x in StraysOf(rows, |rows|) <==> x in Strays(list, all, derive, hosts, now)
    {
      assert (exists j | 0 <= j < |rows| :: rows[j] == x) <==> x in rows;
      assert x in rows <==> x in settled || x in unclaimed;
      assert x in settled <==> exists i | 0 <= i < |listed| :: x == Settled(listed[i], hosts, now) by {
        if i :| 0 <= i < |listed| && x == Settled(listed[i], hosts, now) {
          assert settled[i] == x;
        }
      }
    }
  }

  /** A stray demands action, and is always about a host: one the account reports, or one a session claims. */
  lemma StraysAreAboutHosts(list: seq<Session>, all: bool, derive: Derive, hosts: seq<Host>, now: int, x: Row)
    requires x in Strays(list, all, derive, hosts, now)
    ensures x.status.rank == Stranded || x.elsewhere
    ensures (exists k | 0 <= k < |hosts| :: hosts[k].seed == x.s.seed) || (x.s.mode == Aws && x.s.host != "")
  {
    StraysMean(list, all, derive, hosts, now, x);
    KnownBySeed(list, |list|);
    if i :| 0 <= i < |list| && x == Settled(LocalRow(list[i], derive, now), hosts, now) {
      ListedStranded(list[i], derive, now);
      var h := HostOf(hosts, x.s.seed);
      if h.Some? {
        var k :| 0 <= k < |hosts| && hosts[k] == h.value;
      }
    } else {
      var k :| 0 <= k < |hosts| && x == HostRow(hosts[k], Known(list, |list|), now);
      assert x.s.seed == hosts[k].seed;
    }
  }

  lemma {:induction false} KnownBySeed(list: seq<Session>, n: nat)
    requires n <= |list|
    ensures forall seed | seed in Known(list, n) :: Known(list, n)[seed].seed == seed
  {
    if n > 0 {
      KnownBySeed(list, n - 1);
    }
  }

  ghost predicate UniqueSeeds(list: seq<Session>) {
    forall i, j | 0 <= i < j < |list| :: list[i].seed != list[j].seed
  }

  lemma {:induction false} KnownMeans(list: seq<Session>, n: nat)
    requires UniqueSeeds(list) && n <= |list|
    ensures forall seed :: seed in Known(list, n) <==> exists i | 0 <= i < n :: list[i].seed == seed
    ensures forall i | 0 <= i < n :: Known(list, n)[list[i].seed] == list[i]
  {
    if n > 0 {
      KnownMeans(list, n - 1);
    }
  }

  lemma {:induction false} ListedMeans(list: seq<Session>, all: bool, derive: Derive, now: int, n: nat)
    requires n <= |list|
    ensures forall r :: r in Listed(list, all, derive, now, n) <==>
              exists i | 0 <= i < n :: (all || !list[i].ended) && r == LocalRow(list[i], derive, now)
  {
    if n > 0 {
      ListedMeans(list, all, derive, now, n - 1);
    }
  }

  lemma ShownMeans(list: seq<Session>, all: bool, derive: Derive, now: int, seed: string)
    ensures Shown(Listed(list, all, derive, now, |list|), seed) <==>
              exists i | 0 <= i < |list| :: (all || !list[i].ended) && list[i].seed == seed
  {
    var rows := Listed(list, all, derive, now, |list|);
    ListedMeans(list, all, derive, now, |list|);
    if Shown(rows, seed) {
      var i :| 0 <= i < |rows| && rows[i].s.seed == seed;
      assert rows[i] in rows;
    }
    if i :| 0 <= i < |list| && (all || !list[i].ended) && list[i].seed == seed {
      var r := LocalRow(list[i], derive, now);
      assert r in rows;
    }
  }

  /** What a stray row is, in terms of sessions and hosts. */
  ghost predicate IsStrayOf(x: Row, list: seq<Session>, all: bool, derive: Derive, hosts: seq<Host>, now: int) {
    && IsStray(x)
    && ((exists i | 0 <= i < |list| ::
           (all || !list[i].ended) && x == Settled(LocalRow(list[i], derive, now), hosts, now))
        || (exists k | 0 <= k < |hosts| ::
              && x == HostRow(hosts[k], Known(list, |list|), now)
              && forall i | 0 <= i < |list| && (all || !list[i].ended) :: list[i].seed != hosts[k].seed))
  }

  lemma StraysMean(list: seq<Session>, all: bool, derive: Derive, hosts: seq<Host>, now: int, x: Row)
    ensures x in Strays(list, all, derive, hosts, now) <==> IsStrayOf(x, list, all, derive, hosts, now)
  {
    var rows, known := Listed(list, all, derive, now, |list|), Known(list, |list|);
    ListedMeans(list, all, derive, now, |list|);
    UnclaimedMeans(rows, known, hosts, |hosts|, now);
    forall k | 0 <= k < |hosts|
      ensures Shown(rows, hosts[k].seed) <==>
                exists i | 0 <= i < |list| :: (all || !list[i].ended) && list[i].seed == hosts[k].seed
    {
      ShownMeans(list, all, derive, now, hosts[k].seed);
    }
    if i :| 0 <= i < |rows| && x == Settled(rows[i], hosts, now) {
      assert rows[i] in rows;
    }
    if i :| 0 <= i < |list| && (all || !list[i].ended) && x == Settled(LocalRow(list[i], derive, now), hosts, now) {
      assert LocalRow(list[i], derive, now) in rows;
    }
  }

  /** An ended session that was never provisioned, with a host under its seed. */
  ghost predicate HostUnderOtherMode(list: seq<Session>, hosts: seq<Host>) {
    exists i, k | 0 <= i < |list| && 0 <= k < |hosts| ::
      list[i].ended && !list[i].mode.Aws? && list[i].seed == hosts[k].seed
  }

  /**
   Listing ended sessions or filtering them first finds the same strays,
   exactly when every ended session with a host was provisioned.
   */
  lemma SameStraysEitherWay(list: seq<Session>, derive: Derive, hosts: seq<Host>, now: int)
    requires UniqueSeeds(list)
    ensures Strays(list, true, derive, hosts, now) == Strays(list, false, derive, hosts, now)
            <==> !HostUnderOtherMode(list, hosts)
  {
    KnownMeans(list, |list|);
    if !HostUnderOtherMode(list, hosts) {
      forall x
        ensures x in Strays(list, true, derive, hosts, now) <==> x in Strays(list, false, derive, hosts, now)
      {
        StraysMean(list, true, derive, hosts, now, x);
        StraysMean(list, false, derive, hosts, now, x);
        if IsStrayOf(x, list, true, derive, hosts, now) {
          ListedStrayIsFound(list, derive, hosts, now, x);
        }
        if IsStrayOf(x, list, false, derive, hosts, now) {
          FoundStrayIsListed(list, derive, hosts, now, x);
        }
      }
    } else {
      var i, k :| 0 <= i < |list| && 0 <= k < |hosts|
                  && list[i].ended && !list[i].mode.Aws? && list[i].seed == hosts[k].seed;
      OtherModeIsMissed(list, derive, hosts, now, i, k);
    }
  }

  /** A local session that ended, and a host that carries its seed. */
  lemma LocalSeedOnAHost(list: seq<Session>, hosts: seq<Host>, derive: Derive, now: int)
    requires list == [Session("s", Local, true, "", 0, 0, None, "")]
    requires hosts == [Host("s", "p", "running", 0, 0)]
    ensures Strays(list, true, derive, hosts, now) != Strays(list, false, derive, hosts, now)
  {
    OtherModeIsMissed(list, derive, hosts, now, 0, 0);
  }

  lemma OtherModeIsMissed(list: seq<Session>, derive: Derive, hosts: seq<Host>, now: int, i: nat, k: nat)
    requires UniqueSeeds(list) && i < |list| && k < |hosts|
    requires list[i].ended && !list[i].mode.Aws? && list[i].seed == hosts[k].seed
    ensures Strays(list, true, derive, hosts, now) != Strays(list, false, derive, hosts, now)
  {
    KnownMeans(list, |list|);
    var x := HostRow(hosts[k], Known(list, |list|), now);
    StraysMean(list, true, derive, hosts, now, x);
    StraysMean(list, false, derive, hosts, now, x);
    assert IsStrayOf(x, list, false, derive, hosts, now);
    assert !IsStrayOf(x, list, true, derive, hosts, now);
  }

  lemma ListedStrayIsFound(list: seq<Session>, derive: Derive, hosts: seq<Host>, now: int, x: Row)
    requires UniqueSeeds(list) && IsStrayOf(x, list, true, derive, hosts, now)
    ensures IsStrayOf(x, list, false, derive, hosts, now)
  {
    KnownMeans(list, |list|);
    if i :| 0 <= i < |list| && x == Settled(LocalRow(list[i], derive, now), hosts, now) && list[i].ended {
      var h := HostOf(hosts, list[i].seed);
      assert h.Some?;
      var k :| 0 <= k < |hosts| && hosts[k] == h.value;
      assert x == HostRow(hosts[k], Known(list, |list|), now);
    }
  }

  lemma FoundStrayIsListed(list: seq<Session>, derive: Derive, hosts: seq<Host>, now: int, x: Row)
    requires UniqueSeeds(list) && !HostUnderOtherMode(list, hosts) && IsStrayOf(x, list, false, derive, hosts, now)
    ensures IsStrayOf(x, list, true, derive, hosts, now)
  {
    KnownMeans(list, |list|);
    if k :| 0 <= k < |hosts| && x == HostRow(hosts[k], Known(list, |list|), now)
            && forall i | 0 <= i < |list| && !list[i].ended :: list[i].seed != hosts[k].seed {
      if i :| 0 <= i < |list| && list[i].seed == hosts[k].seed {
        assert list[i].ended && list[i].mode.Aws?;
        assert HostOf(hosts, list[i].seed).Some?;
        assert x == Settled(LocalRow(list[i], derive, now), hosts, now);
      }
    }
  }
}
