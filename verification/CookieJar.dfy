/**
 * The bounded cookie jar of one gateway (internal/httpgateway/cookies.go): what it keeps about each cookie
 * so that the session state of an upstream stays finite.
 */
module CookieJar {
  import opened Options

  const MAX_COOKIES: nat := 128
  const MAX_BYTES: nat := 65536

  /** A cookie whose domain and path defaults are filled in; `text` is its serialised form. */
  datatype Cookie = Cookie(domain: string, path: string, name: string, text: string, maxAge: int, expires: Option<int>)

  datatype Record = Record(size: nat, expires: Option<int>)

  function Key(c: Cookie): (k: string)
    ensures |k| >= 2
  {
    c.domain + ['\0'] + c.path + ['\0'] + c.name
  }

  function Size(c: Cookie): (n: nat)
    ensures n > 0
  {
    |Key(c)| + |c.text|
  }

  /** `leaked` is history: the sizes of the records that were replaced, which `bytes` never gives back. */
  datatype Jar = Jar(records: map<string, Record>, bytes: int, overflow: bool, leaked: nat)

  const EMPTY: Jar := Jar(map[], 0, false, 0)

  predicate Past(expires: Option<int>, now: int) {
    expires.Some? && now >= expires.value
  }

  /** The true total of the sizes kept. */
  ghost function Total(records: map<string, Record>): nat {
    if records == map[] then 0
    else
      var k :| k in records;
      records[k].size + Total(records - {k})
  }

  lemma {:induction false} TotalWithout(records: map<string, Record>, k: string)
    requires k in records
    ensures Total(records) == records[k].size + Total(records - {k})
    decreases |records|
  {
    var first :| first in records && Total(records) == records[first].size + Total(records - {first});
    if first != k {
      TotalWithout(records - {first}, k);
      assert records - {first} - {k} == records - {k} - {first};
      TotalWithout(records - {k}, first);
    }
  }

  function Previous(j: Jar, c: Cookie): nat {
    if Key(c) in j.records then j.records[Key(c)].size else 0
  }

  predicate Deletes(c: Cookie, now: int) {
    c.maxAge < 0 || Past(c.expires, now)
  }

  predicate Refused(j: Jar, c: Cookie) {
    || j.bytes - Previous(j, c) + Size(c) > MAX_BYTES
    || (Previous(j, c) == 0 && |j.records| >= MAX_COOKIES)
  }

  /** What one cookie of a response does to the jar. */
  function SetOne(j: Jar, c: Cookie, now: int): Jar {
    var key, previous := Key(c), Previous(j, c);
    if Deletes(c, now) then j.(bytes := j.bytes - previous, records := j.records - {key})
    else if Refused(j, c) then j.(overflow := true)
    else
      var expires := if c.maxAge > 0 then Some(now + c.maxAge) else c.expires;
      j.(records := j.records[key := Record(Size(c), expires)], bytes := j.bytes + Size(c),
         leaked := j.leaked + previous)
  }

  /** Expired records go before any cookie is looked at. */
  ghost function Purge(j: Jar, now: int): Jar {
    var kept := map k | k in j.records && !Past(j.records[k].expires, now) :: j.records[k];
    j.(records := kept, bytes := j.bytes - Total(j.records) + Total(kept))
  }

  function SetEach(j: Jar, cookies: seq<Cookie>, now: int): Jar {
    if cookies == [] then j else SetOne(SetEach(j, cookies[..|cookies| - 1], now), cookies[|cookies| - 1], now)
  }

  ghost function Answered(j: Jar, cookies: seq<Cookie>, now: int): Jar {
    SetEach(Purge(j, now), cookies, now)
  }

  /** The cookies handed on to the inner jar: all but the refused ones. */
  function Accepted(j: Jar, cookies: seq<Cookie>, now: int): seq<Cookie> {
    if cookies == [] then []
    else
      var before, c := cookies[..|cookies| - 1], cookies[|cookies| - 1];
      Accepted(j, before, now) + if Deletes(c, now) || !Refused(SetEach(j, before, now), c) then [c] else []
  }

  // ---- the bound -----------------------------------------------------------------------------

  /**
   * The counter is the true total plus what leaked, so it is an upper bound of the total; and the total,
   * not the counter, is what stays within 64 KiB.
   */
  ghost predicate Inv(j: Jar) {
    && j.bytes == Total(j.records) + j.leaked
    && Total(j.records) <= MAX_BYTES
    && |j.records| <= MAX_COOKIES
    && forall k | k in j.records :: j.records[k].size > 0
  }

  lemma {:induction false} TotalShrinks(records: map<string, Record>, kept: map<string, Record>)
    requires forall k | k in kept :: k in records && kept[k] == records[k]
    ensures Total(kept) <= Total(records) && |kept| <= |records|
    decreases |kept|
  {
    if kept != map[] {
      var k :| k in kept;
      TotalWithout(kept, k);
      TotalWithout(records, k);
      TotalShrinks(records - {k}, kept - {k});
      assert |kept - {k}| == |kept| - 1 && |records - {k}| == |records| - 1;
    }
  }

  lemma PurgeKeeps(j: Jar, now: int)
    requires Inv(j)
    ensures Inv(Purge(j, now))
  {
    TotalShrinks(j.records, Purge(j, now).records);
  }

  /** Without one record; nothing is lost if it is not there. */
  lemma TotalRest(records: map<string, Record>, key: string)
    ensures Total(records - {key}) == Total(records) - if key in records then records[key].size else 0
    ensures |records - {key}| == |records| - if key in records then 1 else 0
  {
    if key in records {
      TotalWithout(records, key);
      assert (records - {key}).Keys == records.Keys - {key};
    } else {
      assert records - {key} == records;
    }
  }

  lemma DeleteKeeps(j: Jar, c: Cookie, now: int)
    requires Inv(j) && Deletes(c, now)
    ensures Inv(SetOne(j, c, now)) && SetOne(j, c, now).leaked >= j.leaked
  {
    TotalRest(j.records, Key(c));
    hide Total, Key, Deletes;
  }

  lemma StoreKeeps(j: Jar, c: Cookie, now: int)
    requires Inv(j) && !Deletes(c, now) && !Refused(j, c)
    ensures Inv(SetOne(j, c, now)) && SetOne(j, c, now).leaked >= j.leaked
  {
    var key, more := Key(c), SetOne(j, c, now).records;
    TotalRest(j.records, key);
    TotalRest(more, key);
    assert more - {key} == j.records - {key};
    hide Total, Key, Deletes;
  }

  lemma SetOneKeeps(j: Jar, c: Cookie, now: int)
    requires Inv(j)
    ensures Inv(SetOne(j, c, now)) && SetOne(j, c, now).leaked >= j.leaked
  {
    if Deletes(c, now) {
      DeleteKeeps(j, c, now);
    } else if !Refused(j, c) {
      StoreKeeps(j, c, now);
    }
  }

  lemma {:induction false} SetEachKeeps(j: Jar, cookies: seq<Cookie>, now: int)
    requires Inv(j)
    ensures Inv(SetEach(j, cookies, now)) && SetEach(j, cookies, now).leaked >= j.leaked
  {
    if cookies != [] {
      SetEachKeeps(j, cookies[..|cookies| - 1], now);
      SetOneKeeps(SetEach(j, cookies[..|cookies| - 1], now), cookies[|cookies| - 1], now);
    }
  }

  datatype Answer = Answer(cookies: seq<Cookie>, now: int)

  ghost function Run(answers: seq<Answer>): Jar {
    if answers == [] then EMPTY
    else
      var a := answers[|answers| - 1];
      Answered(Run(answers[..|answers| - 1]), a.cookies, a.now)
  }

  lemma {:induction false} RunInv(answers: seq<Answer>)
    ensures Inv(Run(answers))
  {
    if answers != [] {
      var j, a := Run(answers[..|answers| - 1]), answers[|answers| - 1];
      RunInv(answers[..|answers| - 1]);
      PurgeKeeps(j, a.now);
      SetEachKeeps(Purge(j, a.now), a.cookies, a.now);
    }
  }

  /** Over every run of responses the jar keeps at most 128 records of at most 64 KiB together. */
  lemma Bounded(answers: seq<Answer>)
    ensures var j := Run(answers);
      |j.records| <= MAX_COOKIES && Total(j.records) <= MAX_BYTES && Total(j.records) <= j.bytes
  {
    RunInv(answers);
  }

  lemma RefusedWhen(j: Jar, c: Cookie)
    requires Inv(j)
    ensures Refused(j, c) <==>
      || Total(j.records - {Key(c)}) + Size(c) + j.leaked > MAX_BYTES
      || (Key(c) !in j.records && |j.records| == MAX_COOKIES)
  {
    if Key(c) in j.records {
      TotalWithout(j.records, Key(c));
    } else {
      assert j.records - {Key(c)} == j.records;
    }
  }

  /**
   * The converse would be that a cookie is refused only when it does not fit. It holds exactly as long as
   * nothing has leaked: a cookie is refused iff its size, the other records and all replaced sizes
   * exceed 64 KiB together, or a new one finds 128 records.
   */
  lemma RefusedIff(answers: seq<Answer>, c: Cookie)
    ensures var j := Run(answers);
      Refused(j, c) <==>
        || Total(j.records - {Key(c)}) + Size(c) + j.leaked > MAX_BYTES
        || (Key(c) !in j.records && |j.records| == MAX_COOKIES)
  {
    RunInv(answers);
    RefusedWhen(Run(answers), c);
  }

  // ---- what is kept --------------------------------------------------------------------------

  /** The last of some cookies with a key. */
  function LastFor(cookies: seq<Cookie>, k: string): Option<Cookie> {
    if cookies == [] then None
    else if Key(cookies[|cookies| - 1]) == k then Some(cookies[|cookies| - 1])
    else LastFor(cookies[..|cookies| - 1], k)
  }

  /** The record that one cookie asks for: none if it deletes; Max-Age counts from now and goes before Expires. */
  function Wanted(c: Cookie, now: int): Option<Record> {
    if c.maxAge < 0 || (c.expires.Some? && c.expires.value <= now) then None
    else Some(Record(|c.domain| + |c.path| + |c.name| + 2 + |c.text|, if c.maxAge > 0 then Some(now + c.maxAge) else c.expires))
  }

  function Kept(j: Jar, k: string): Option<Record> {
    if k in j.records then Some(j.records[k]) else None
  }

  lemma LastForMore(cookies: seq<Cookie>, c: Cookie, k: string)
    ensures LastFor(cookies + [c], k) == if Key(c) == k then Some(c) else LastFor(cookies, k)
  {
    assert (cookies + [c])[..|cookies|] == cookies;
  }

  lemma SetOneKept(j: Jar, c: Cookie, now: int, k: string)
    ensures var taken := Deletes(c, now) || !Refused(j, c);
      && Kept(SetOne(j, c, now), k) == (if taken && Key(c) == k then Wanted(c, now) else Kept(j, k))
      && (SetOne(j, c, now).overflow <==> j.overflow || !taken)
  {
    assert Size(c) == |c.domain| + |c.path| + |c.name| + 2 + |c.text|;
    hide Key, Size, Refused;
  }

  lemma {:induction false} EachKept(j: Jar, cookies: seq<Cookie>, now: int, k: string)
    ensures var last := LastFor(Accepted(j, cookies, now), k);
      Kept(SetEach(j, cookies, now), k) == if last.Some? then Wanted(last.value, now) else Kept(j, k)
    ensures |Accepted(j, cookies, now)| <= |cookies|
    ensures SetEach(j, cookies, now).overflow <==> j.overflow || |Accepted(j, cookies, now)| < |cookies|
  {
    if cookies != [] {
      var before, c := cookies[..|cookies| - 1], cookies[|cookies| - 1];
      EachKept(j, before, now, k);
      SetOneKept(SetEach(j, before, now), c, now, k);
      LastForMore(Accepted(j, before, now), c, k);
      assert Accepted(j, before, now) + [] == Accepted(j, before, now);
      hide SetOne, Wanted, Refused, Deletes, Key, Kept, LastFor;
    }
  }

  /**
   * Of each name in a domain and path, the last cookie that was not refused decides: it is deleted, or kept
   * with its size and expiry. Without one, what was kept stays unless it has expired. The jar has overflowed
   * exactly if a cookie was ever refused.
   */
  lemma LastCookieDecides(j: Jar, cookies: seq<Cookie>, now: int, k: string)
    ensures var accepted := Accepted(Purge(j, now), cookies, now); var last := LastFor(accepted, k);
      && Kept(Answered(j, cookies, now), k) ==
           (if last.Some? then Wanted(last.value, now)
            else if k in j.records && (j.records[k].expires.None? || now < j.records[k].expires.value) then Some(j.records[k])
            else None)
      && (Answered(j, cookies, now).overflow <==> j.overflow || accepted != cookies)
  {
    EachKept(Purge(j, now), cookies, now, k);
    AcceptedAll(Purge(j, now), cookies, now);
    hide Accepted, SetEach, LastFor, Wanted;
  }

  lemma {:induction false} AcceptedAll(j: Jar, cookies: seq<Cookie>, now: int)
    ensures |Accepted(j, cookies, now)| <= |cookies|
    ensures |Accepted(j, cookies, now)| == |cookies| <==> Accepted(j, cookies, now) == cookies
  {
    if cookies != [] {
      AcceptedAll(j, cookies[..|cookies| - 1], now);
      hide Refused, Deletes, SetEach;
    }
  }

  function Again(c: Cookie, times: nat): seq<Cookie> {
    if times == 0 then [] else Again(c, times - 1) + [c]
  }

  /** Setting the only cookie of a jar. */
  lemma SetAgain(j: Jar, c: Cookie, now: int)
    requires !Deletes(c, now) && !j.overflow && Size(c) <= MAX_BYTES
    requires j == EMPTY || (j.records.Keys == {Key(c)} && j.records[Key(c)].size == Size(c) && j.bytes >= Size(c))
    ensures j.bytes <= MAX_BYTES ==>
      var k := SetOne(j, c, now);
      k.records.Keys == {Key(c)} && k.records[Key(c)].size == Size(c) && k.bytes == j.bytes + Size(c) && !k.overflow
    ensures j.bytes > MAX_BYTES ==> SetOne(j, c, now).overflow
  {
  }

  lemma AgainOnce(j: Jar, c: Cookie, times: nat, now: int)
    ensures SetEach(j, Again(c, times + 1), now) == SetOne(SetEach(j, Again(c, times), now), c, now)
  {
    var more := Again(c, times + 1);
    assert more[..|more| - 1] == Again(c, times);
  }

  lemma Multiples(times: nat, size: nat)
    requires times > 0
    ensures times * size == (times - 1) * size + size && (times - 1) * size >= 0
  {
  }

  lemma {:induction false} Repeated(c: Cookie, times: nat, now: int)
    requires !Deletes(c, now) && times > 0 && (times - 1) * Size(c) <= MAX_BYTES && Size(c) <= MAX_BYTES
    ensures var j := SetEach(EMPTY, Again(c, times), now);
      && j.records.Keys == {Key(c)} && j.records[Key(c)].size == Size(c)
      && j.bytes == times * Size(c) && !j.overflow
  {
    hide SetOne, Size, Deletes;
    AgainOnce(EMPTY, c, times - 1, now);
    if times == 1 {
      SetAgain(EMPTY, c, now);
    } else {
      Multiples(times, Size(c));
      Multiples(times - 1, Size(c));
      Repeated(c, times - 1, now);
      SetAgain(SetEach(EMPTY, Again(c, times - 1), now), c, now);
    }
  }

  /**
   * One small cookie, set again and again, is enough to overflow the jar: each time its size is added
   * and never taken off, and the jar stays at a single record throughout.
   */
  lemma OneCookieOverflows(c: Cookie, times: nat, now: int)
    requires !Deletes(c, now) && times > 0 && (times - 1) * Size(c) <= MAX_BYTES && Size(c) <= MAX_BYTES
    ensures var j := SetEach(EMPTY, Again(c, times), now);
      && j.records.Keys == {Key(c)} && j.records[Key(c)].size == Size(c)
      && j.bytes == times * Size(c) && !j.overflow
      && (times * Size(c) > MAX_BYTES ==> SetEach(EMPTY, Again(c, times + 1), now).overflow)
  {
    Repeated(c, times, now);
    AgainOnce(EMPTY, c, times, now);
    Multiples(times, Size(c));
    hide SetOne, Size, Deletes, SetEach, Again;
    SetAgain(SetEach(EMPTY, Again(c, times), now), c, now);
  }

  // ---- the object ----------------------------------------------------------------------------

  class BoundedJar {
    var records: map<string, Record>
    var bytes: int
    var overflow: bool
    ghost var leaked: nat

    ghost function View(): Jar
      reads this
    {
      Jar(records, bytes, overflow, leaked)
    }

    constructor ()
      ensures View() == EMPTY
    {
      records, bytes, overflow, leaked := map[], 0, false, 0;
    }

    /** Records are looked at one by one, in any order. */
    method DropExpired(now: int)
      modifies this
      ensures View() == Purge(old(View()), now)
    {
      var keys := records.Keys;
      while keys != {}
        invariant overflow == old(overflow) && leaked == old(leaked)
        invariant keys <= records.Keys <= old(records).Keys
        invariant forall k | k in records :: records[k] == old(records)[k]
        invariant forall k | k in old(records) :: k in records <==> k in keys || !Past(old(records)[k].expires, now)
        invariant bytes == old(bytes) - Total(old(records)) + Total(records)
        decreases keys
      {
        var k :| k in keys;
        if Past(records[k].expires, now) {
          TotalWithout(records, k);
          bytes := bytes - records[k].size;
          records := records - {k};
        }
        keys := keys - {k};
      }
      assert records == Purge(old(View()), now).records;
    }

    /** The body of the loop over the cookies of one response. */
    method SetCookie(c: Cookie, now: int) returns (accepted: bool)
      modifies this
      ensures View() == SetOne(old(View()), c, now)
      ensures accepted <==> Deletes(c, now) || !Refused(old(View()), c)
    {
      var key := Key(c);
      var previous := if key in records then records[key].size else 0;
      if c.maxAge < 0 || (c.expires.Some? && now >= c.expires.value) {
        bytes := bytes - previous;
        records := records - {key};
        return true;
      }
      var size := |key| + |c.text|;
      if bytes - previous + size > MAX_BYTES || (previous == 0 && |records| >= MAX_COOKIES) {
        overflow := true;
        return false;
      }
      var expires := c.expires;
      if c.maxAge > 0 {
        expires := Some(now + c.maxAge);
      }
      records := records[key := Record(size, expires)];
      bytes := bytes + size;
      leaked := leaked + previous;
      return true;
    }

    method SetCookies(cookies: seq<Cookie>, now: int) returns (accepted: seq<Cookie>)
      modifies this
      ensures View() == Answered(old(View()), cookies, now)
      ensures accepted == Accepted(Purge(old(View()), now), cookies, now)
    {
      DropExpired(now);
      ghost var start := View();
      accepted := [];
      hide SetOne, Refused;
      for i := 0 to |cookies|
        invariant View() == SetEach(start, cookies[..i], now)
        invariant accepted == Accepted(start, cookies[..i], now)
      {
        assert cookies[..i + 1][..i] == cookies[..i];
        var ok := SetCookie(cookies[i], now);
        if ok {
          accepted := accepted + [cookies[i]];
        }
      }
      assert cookies[..|cookies|] == cookies;
    }
  }
}
