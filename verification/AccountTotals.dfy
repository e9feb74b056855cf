/** The account's storage total, as a sum of three filtered sums, and the list of people its
    notifications go to. */
module AccountTotals {
  import opened Common

  // -----------------------------------------------------------------------------------
  // storage_used
  // -----------------------------------------------------------------------------------

  /** A stored copy of a backup: one row of a storage-points table joined with its backup and its
      storage. `typeCode` is the code of the storage's type. */
  datatype Copy = Copy(account: int, typeCode: string, backupComplete: bool, size: Option<int>, uploaded: bool)

  /** The arguments of storage_used. */
  datatype Query = Query(account: int, typeCode: string, onlyByoStorage: bool,
                         websiteOnly: bool, databaseOnly: bool) {
    predicate Admits(c: Copy) {
      && c.size.Some? && c.backupComplete && c.account == account && c.uploaded
      && if typeCode != "" then c.typeCode == typeCode
         else onlyByoStorage ==> c.typeCode != "bs"
    }
  }

  function Everything(account: int): Query {
    Query(account, "", false, false, false)
  }

  /** aggregate(Sum("backup__size")) or 0 */
  function Sum(copies: seq<Copy>, q: Query): int {
    if copies == [] then 0
    else Sum(copies[1..], q) + (if q.Admits(copies[0]) then copies[0].size.value else 0)
  }

  /** The three tables storage_used adds up. */
  datatype Stored = Stored(website: seq<Copy>, database: seq<Copy>, wordpress: seq<Copy>)

  function Total(s: Stored, q: Query): int {
    (if q.databaseOnly then 0 else Sum(s.website, q) + Sum(s.wordpress, q))
    + (if q.websiteOnly then 0 else Sum(s.database, q))
  }

  method SumSizes(copies: seq<Copy>, q: Query) returns (sum: int)
    ensures sum == Sum(copies, q)
  {
    sum := 0;
    var i := |copies|;
    while i > 0
      invariant 0 <= i <= |copies|
      invariant sum == Sum(copies[i..], q)
    {
      i := i - 1;
      assert copies[i..][1..] == copies[i + 1..];
      if q.Admits(copies[i]) {
        sum := sum + copies[i].size.value;
      }
    }
  }

  method StorageUsed(s: Stored, q: Query) returns (storageUsed: int)
    ensures storageUsed == Total(s, q)
  {
    storageUsed := 0;
    if !q.databaseOnly {
      var website := SumSizes(s.website, q);
      storageUsed := storageUsed + website;
    }
    if !q.websiteOnly {
      var database := SumSizes(s.database, q);
      storageUsed := storageUsed + database;
    }
    if !q.databaseOnly {
      var wordpress := SumSizes(s.wordpress, q);
      storageUsed := storageUsed + wordpress;
    }
  }

  /** What one stored copy adds: its size, if that is known, its backup is complete, it is uploaded to a
      storage of the account, and the storage's type is the one asked for, or not "bs" when only the
      account's own storage is. */
  lemma OneCopyCounts(c: Copy, q: Query)
    ensures Sum([c], q) ==
              if && c.size.Some? && c.backupComplete && c.uploaded && c.account == q.account
                 && (q.typeCode != "" ==> c.typeCode == q.typeCode)
                 && (q.typeCode == "" && q.onlyByoStorage ==> c.typeCode != "bs")
              then c.size.value else 0
  {
    assert [c][1..] == [];
  }

  lemma {:induction false} SumConcat(a: seq<Copy>, b: seq<Copy>, q: Query)
    ensures Sum(a + b, q) == Sum(a, q) + Sum(b, q)
  {
    if a == [] {
      assert a + b == b;
    } else {
      assert (a + b)[1..] == a[1..] + b;
      SumConcat(a[1..], b, q);
    }
  }

  /** Websites and WordPress count unless only databases do, databases unless only websites do. */
  lemma TotalReadsTables(s: Stored, q: Query)
    ensures q.websiteOnly && !q.databaseOnly ==> Total(s, q) == Sum(s.website + s.wordpress, q)
    ensures q.databaseOnly && !q.websiteOnly ==> Total(s, q) == Sum(s.database, q)
    ensures !q.databaseOnly && !q.websiteOnly ==> Total(s, q) == Sum(s.website + s.database + s.wordpress, q)
  {
    SumConcat(s.website, s.wordpress, q);
    SumConcat(s.website, s.database, q);
    SumConcat(s.website + s.database, s.wordpress, q);
  }

  /** A copy counts for a query, for exactly one part of a split of it, or for neither. */
  ghost predicate Splits(q: Query, a: Query, b: Query) {
    forall c: Copy :: (q.Admits(c) <==> a.Admits(c) || b.Admits(c)) && !(a.Admits(c) && b.Admits(c))
  }

  lemma {:induction false} SumSplits(copies: seq<Copy>, q: Query, a: Query, b: Query)
    requires Splits(q, a, b)
    ensures Sum(copies, q) == Sum(copies, a) + Sum(copies, b)
  {
    if copies != [] {
      SumSplits(copies[1..], q, a, b);
      assert q.Admits(copies[0]) <==> a.Admits(copies[0]) || b.Admits(copies[0]);
      assert !(a.Admits(copies[0]) && b.Admits(copies[0]));
    }
  }

  lemma TotalSplits(s: Stored, q: Query, a: Query, b: Query)
    requires Splits(q, a, b)
    requires q.websiteOnly == a.websiteOnly == b.websiteOnly && q.databaseOnly == a.databaseOnly == b.databaseOnly
    ensures Total(s, q) == Total(s, a) + Total(s, b)
  {
    SumSplits(s.website, q, a, b);
    SumSplits(s.database, q, a, b);
    SumSplits(s.wordpress, q, a, b);
  }

  lemma {:induction false} SumIgnoresParts(copies: seq<Copy>, q: Query, r: Query)
    requires forall c: Copy :: q.Admits(c) <==> r.Admits(c)
    ensures Sum(copies, q) == Sum(copies, r)
  {
    if copies != [] {
      SumIgnoresParts(copies[1..], q, r);
      assert q.Admits(copies[0]) <==> r.Admits(copies[0]);
    }
  }

  /** The total is the website-only total plus the database-only total, and asking for both at
      once counts nothing. */
  lemma WebsitePlusDatabase(s: Stored, q: Query)
    requires !q.websiteOnly && !q.databaseOnly
    ensures Total(s, q) == Total(s, q.(websiteOnly := true)) + Total(s, q.(databaseOnly := true))
    ensures Total(s, q.(websiteOnly := true, databaseOnly := true)) == 0
  {
    SumIgnoresParts(s.website, q, q.(websiteOnly := true));
    SumIgnoresParts(s.wordpress, q, q.(websiteOnly := true));
    SumIgnoresParts(s.database, q, q.(databaseOnly := true));
  }

  /** The total is the "bs" total plus the own-storage total. */
  lemma BsPlusOwnStorage(s: Stored, q: Query)
    requires q.typeCode == "" && !q.onlyByoStorage
    ensures Total(s, q) == Total(s, q.(typeCode := "bs")) + Total(s, q.(onlyByoStorage := true))
  {
    TotalSplits(s, q, q.(typeCode := "bs"), q.(onlyByoStorage := true));
  }

  function SumOverCodes(s: Stored, q: Query, codes: seq<string>): int {
    if codes == [] then 0
    else Total(s, q.(typeCode := codes[0])) + SumOverCodes(s, q, codes[1..])
  }

  /** The sizes of the counted copies whose type code is in none of `codes`. */
  function Rest(copies: seq<Copy>, q: Query, codes: seq<string>): int {
    if copies == [] then 0
    else Rest(copies[1..], q, codes)
         + (if q.Admits(copies[0]) && copies[0].typeCode !in codes then copies[0].size.value else 0)
  }

  function TotalRest(s: Stored, q: Query, codes: seq<string>): int {
    (if q.databaseOnly then 0 else Rest(s.website, q, codes) + Rest(s.wordpress, q, codes))
    + (if q.websiteOnly then 0 else Rest(s.database, q, codes))
  }

  lemma {:induction false} RestOfNone(copies: seq<Copy>, q: Query)
    ensures Rest(copies, q, []) == Sum(copies, q)
  {
    if copies != [] {
      RestOfNone(copies[1..], q);
    }
  }

  lemma {:induction false} RestSplits(copies: seq<Copy>, q: Query, codes: seq<string>)
    requires q.typeCode == "" && !q.onlyByoStorage
    requires codes != [] && codes[0] != "" && codes[0] !in codes[1..]
    ensures Rest(copies, q, codes[1..]) == Sum(copies, q.(typeCode := codes[0])) + Rest(copies, q, codes)
  {
    if copies != [] {
      RestSplits(copies[1..], q, codes);
      var c := copies[0];
      assert c.typeCode in codes <==> c.typeCode == codes[0] || c.typeCode in codes[1..];
    }
  }

  /** For distinct non-empty type codes, the total is the sum of the per-type totals plus what
      the copies of all other types (an empty code included) add. */
  lemma {:induction false} TypesPlusRest(s: Stored, q: Query, codes: seq<string>)
    requires q.typeCode == "" && !q.onlyByoStorage
    requires Distinct(codes) && "" !in codes
    ensures Total(s, q) == SumOverCodes(s, q, codes) + TotalRest(s, q, codes)
  {
    if codes == [] {
      RestOfNone(s.website, q);
      RestOfNone(s.database, q);
      RestOfNone(s.wordpress, q);
    } else {
      assert codes[0] in codes;
      assert forall i | 0 <= i < |codes[1..]| :: codes[1..][i] == codes[i + 1];
      TypesPlusRest(s, q, codes[1..]);
      RestSplits(s.website, q, codes);
      RestSplits(s.database, q, codes);
      RestSplits(s.wordpress, q, codes);
    }
  }

  predicate Covers(copies: seq<Copy>, codes: seq<string>) {
    forall c | c in copies :: c.typeCode in codes
  }

  lemma {:induction false} NoRest(copies: seq<Copy>, q: Query, codes: seq<string>)
    requires Covers(copies, codes)
    ensures Rest(copies, q, codes) == 0
  {
    if copies != [] {
      assert copies[0] in copies && forall c | c in copies[1..] :: c in copies;
      NoRest(copies[1..], q, codes);
    }
  }

  /** The total over all types is the sum of the per-type totals, for any list of distinct
      non-empty codes that covers the stored copies. */
  lemma TotalIsSumOverTypes(s: Stored, q: Query, codes: seq<string>)
    requires q.typeCode == "" && !q.onlyByoStorage
    requires Distinct(codes) && "" !in codes
    requires Covers(s.website, codes) && Covers(s.database, codes) && Covers(s.wordpress, codes)
    ensures Total(s, q) == SumOverCodes(s, q, codes)
  {
    TypesPlusRest(s, q, codes);
    NoRest(s.website, q, codes);
    NoRest(s.database, q, codes);
    NoRest(s.wordpress, q, codes);
  }

  // -----------------------------------------------------------------------------------
  // get_notification_recipients
  // -----------------------------------------------------------------------------------

  /** A membership joined with its member's user; an empty email stands for a missing one. */
  datatype Membership = Membership(member: int, email: string, active: bool, primary: bool,
                                   notifyOnSuccess: Option<bool>, notifyOnFail: Option<bool>)

  predicate Wants(m: Membership, event: string) {
    && m.active && m.email != ""
    && (m.primary || (if event == "success" then m.notifyOnSuccess else m.notifyOnFail) != Some(false))
  }

  /** The n-th membership is the first that speaks for its (member, email) pair. */
  predicate Leads(ms: seq<Membership>, event: string, n: nat)
    requires n < |ms|
  {
    && Wants(ms[n], event)
    && forall k | 0 <= k < n :: Wants(ms[k], event) ==> Pair(ms[k]) != Pair(ms[n])
  }

  function Pair(m: Membership): (int, string) {
    (m.member, m.email)
  }

  /** The pairs of the leading memberships, in order. */
  function Recipients(ms: seq<Membership>, event: string, n: nat): seq<(int, string)>
    requires n <= |ms|
  {
    if n == 0 then []
    else
      var before := Recipients(ms, event, n - 1);
      if Leads(ms, event, n - 1) then before + [Pair(ms[n - 1])] else before
  }

  /** Every pair that wants the event is listed. */
  lemma {:induction false} WantedIsListed(ms: seq<Membership>, event: string, n: nat, k: nat)
    requires k < n <= |ms| && Wants(ms[k], event)
    ensures Pair(ms[k]) in Recipients(ms, event, n)
  {
    if k < n - 1 {
      WantedIsListed(ms, event, n - 1, k);
    } else if !Leads(ms, event, k) {
      var j :| 0 <= j < k && Wants(ms[j], event) && Pair(ms[j]) == Pair(ms[k]);
      WantedIsListed(ms, event, k, j);
    }
  }

  /** Every listed pair is that of a membership that wants the event, which this names. */
  lemma {:induction false} ListedIsWanted(ms: seq<Membership>, event: string, n: nat, i: nat) returns (k: nat)
    requires n <= |ms| && i < |Recipients(ms, event, n)|
    ensures k < n && Leads(ms, event, k) && Recipients(ms, event, n)[i] == Pair(ms[k])
  {
    if i < |Recipients(ms, event, n - 1)| {
      k := ListedIsWanted(ms, event, n - 1, i);
    } else {
      k := n - 1;
    }
  }

  /** A membership leads exactly when it wants the event and its pair is not listed yet. */
  lemma LeadsExactly(ms: seq<Membership>, event: string, n: nat)
    requires n < |ms|
    ensures Leads(ms, event, n) <==> Wants(ms[n], event) && Pair(ms[n]) !in Recipients(ms, event, n)
  {
    if Wants(ms[n], event) && Pair(ms[n]) in Recipients(ms, event, n) {
      var i :| 0 <= i < |Recipients(ms, event, n)| && Recipients(ms, event, n)[i] == Pair(ms[n]);
      var k := ListedIsWanted(ms, event, n, i);
    }
    if Wants(ms[n], event) && !Leads(ms, event, n) {
      var j :| 0 <= j < n && Wants(ms[j], event) && Pair(ms[j]) == Pair(ms[n]);
      WantedIsListed(ms, event, n, j);
    }
  }

  /** Of the pairs that want the event each is listed exactly once, and nothing else is. */
  lemma {:induction false} EachWantedPairOnce(ms: seq<Membership>, event: string, n: nat)
    requires n <= |ms|
    ensures Distinct(Recipients(ms, event, n))
    ensures forall p :: p in Recipients(ms, event, n) <==>
              exists k :: 0 <= k < n && Wants(ms[k], event) && p == Pair(ms[k])
  {
    if n > 0 {
      EachWantedPairOnce(ms, event, n - 1);
      LeadsExactly(ms, event, n - 1);
    }
    var r := Recipients(ms, event, n);
    forall p | p in r ensures exists k :: 0 <= k < n && Wants(ms[k], event) && p == Pair(ms[k]) {
      var i :| 0 <= i < |r| && r[i] == p;
      var k := ListedIsWanted(ms, event, n, i);
    }
    forall k | 0 <= k < n && Wants(ms[k], event) ensures Pair(ms[k]) in r {
      WantedIsListed(ms, event, n, k);
    }
  }

  /** The error cases are the unknown events; otherwise every wanting (member, email) pair is listed
      exactly once, in the order of its first membership. */
  method GetNotificationRecipients(ms: seq<Membership>, event: string)
    returns (r: Result<seq<(int, string)>, string>)
    ensures r.Err? <==> event != "success" && event != "fail"
    ensures r.Ok? ==> r.value == Recipients(ms, event, |ms|)
    ensures r.Ok? ==> Distinct(r.value)
                      && forall p :: p in r.value <==>
                           exists k :: 0 <= k < |ms| && Wants(ms[k], event) && p == Pair(ms[k])
  {
    if event != "success" && event != "fail" {
      return Err("unknown notification event: " + event);
    }
    var recipients: seq<(int, string)> := [];
    var seen: set<(int, string)> := {};
    var i := 0;
    while i < |ms|
      invariant 0 <= i <= |ms|
      invariant recipients == Recipients(ms, event, i)
      invariant forall p :: p in seen <==> p in recipients
    {
      var m := ms[i];
      LeadsExactly(ms, event, i);
      if m.active {
        var muted := !m.primary && (if event == "success" then m.notifyOnSuccess else m.notifyOnFail) == Some(false);
        if !muted && m.email != "" && (m.member, m.email) !in seen {
          seen := seen + {(m.member, m.email)};
          recipients := recipients + [(m.member, m.email)];
        }
      }
      i := i + 1;
    }
    EachWantedPairOnce(ms, event, |ms|);
    r := Ok(recipients);
  }

  /** The owner can never be opted out: an active primary membership with an email is always
      listed, whatever its flags. */
  lemma PrimaryIsAlwaysListed(ms: seq<Membership>, event: string, k: nat)
    requires k < |ms| && ms[k].active && ms[k].primary && ms[k].email != ""
    ensures Pair(ms[k]) in Recipients(ms, event, |ms|)
  {
    WantedIsListed(ms, event, |ms|, k);
  }

  /** Muting: a membership that is not primary is left out exactly when its flag for the event is false; a
      missing flag does not mute. */
  lemma MutedExactly(m: Membership)
    requires m.active && m.email != ""
    ensures Wants(m, "success") <==> m.primary || m.notifyOnSuccess != Some(false)
    ensures Wants(m, "fail") <==> m.primary || m.notifyOnFail != Some(false)
  {
  }

  /** Nobody inactive or without an email is listed, and the list goes by first memberships. */
  lemma {:induction false} ListedInOrder(ms: seq<Membership>, event: string, n: nat)
    requires n <= |ms|
    ensures forall p | p in Recipients(ms, event, n) ::
              exists k :: 0 <= k < n && ms[k].active && ms[k].email != "" && p == (ms[k].member, ms[k].email)
    ensures forall m: nat | m <= n :: Recipients(ms, event, m) <= Recipients(ms, event, n)
  {
    if n > 0 {
      ListedInOrder(ms, event, n - 1);
    }
    EachWantedPairOnce(ms, event, n);
  }
}
