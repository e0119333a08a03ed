/** Passwordless login links (`MagicLink` in app/models/magic_link.py): a collection in
    insertion order that `create` appends to, `mark_as_used` and `revoke` update in place
    and `delete_expired` prunes, and a read-only validator that rejects an unknown, a used
    or an expired token, in that order. A link only ever goes from unused to used. */
module MagicLinkModel {

  import opened Common

  /** `expires_in_hours` when the caller gives none. */
  const DefaultExpiryHours: int := 24

  datatype MagicLink = MagicLink(
    id: string,
    token: string,
    clientId: string,
    createdBy: Option<string>,
    createdAt: Instant,
    expiresAt: Instant,
    used: bool,
    usedAt: Option<Instant>,
    ipAddress: Option<string>)

  /** The record `create` inserts: unused, expiring `expiresInHours` hours after `now`.
      The token is drawn at random by the caller. */
  function NewLink(id: string, token: string, clientId: string, expiresInHours: int,
                   createdBy: Option<string>, now: Instant): (l: MagicLink)
    ensures l.id == id && l.token == token && l.clientId == clientId && l.createdBy == createdBy
    ensures l.createdAt == now && l.expiresAt - l.createdAt == expiresInHours * SecondsPerHour
    ensures !l.used && l.usedAt.None? && l.ipAddress.None?
  {
    MagicLink(id, token, clientId, createdBy, now, now + expiresInHours * SecondsPerHour, false, None, None)
  }

  /** The position `find_one({'token': token})` (and `update_one` on the same filter)
      reaches: the first link, in insertion order, carrying the token. */
  function Find(records: seq<MagicLink>, token: string): (r: Option<nat>)
    ensures r.Some? ==> r.value < |records| && records[r.value].token == token
    ensures r.Some? ==> forall i :: 0 <= i < r.value ==> records[i].token != token
    ensures r.None? <==> forall i :: 0 <= i < |records| ==> records[i].token != token
  {
    if records == [] then None
    else if records[0].token == token then Some(0)
    else
      match Find(records[1..], token)
      case Some(j) =>
        assert forall i :: 1 <= i <= j ==> records[i] == records[1..][i - 1];
        Some(j + 1)
      case None =>
        assert forall i :: 1 <= i < |records| ==> records[i] == records[1..][i - 1];
        None
  }

  /** The contract of `Find` pins down its result. */
  lemma FindIsFirst(records: seq<MagicLink>, token: string, i: nat)
    requires i < |records| && records[i].token == token
    requires forall j :: 0 <= j < i ==> records[j].token != token
    ensures Find(records, token) == Some(i)
  {
  }

  /** A link with another token in front does not change the lookup. */
  lemma FindPastOther(l: MagicLink, records: seq<MagicLink>, token: string)
    requires l.token != token
    ensures Find([l] + records, token) == (match Find(records, token) case Some(i) => Some(i + 1) case None => None)
  {
    assert ([l] + records)[1..] == records;
  }

  // ---------------------------------------------------------------- validate_token

  datatype LinkError = InvalidLink | AlreadyUsed | Expired

  /** What a valid token grants: the link's client and the link's own id. */
  datatype Grant = Grant(clientId: string, linkId: string)

  /** `validate_token` at instant `now`: a used link is refused before its expiry is
      looked at, and a link is still valid at the very instant it expires. */
  function ValidateToken(records: seq<MagicLink>, token: string, now: Instant): (r: Result<Grant, LinkError>)
    ensures r == Err(InvalidLink) <==> Find(records, token).None?
    ensures Find(records, token).Some? ==>
              var l := records[Find(records, token).value];
              && (r == Err(AlreadyUsed) <==> l.used)
              && (r == Err(Expired) <==> !l.used && now > l.expiresAt)
              && (r.Ok? <==> !l.used && now <= l.expiresAt)
              && (r.Ok? ==> r.value == Grant(l.clientId, l.id))
  {
    match Find(records, token)
    case None => Err(InvalidLink)
    case Some(i) =>
      var l := records[i];
      if l.used then Err(AlreadyUsed)
      else if now > l.expiresAt then Err(Expired)
      else Ok(Grant(l.clientId, l.id))
  }

  /** A newly created link validates, for its own client, from its creation up to and
      including its expiry instant, and is refused as expired afterwards, unless an
      earlier link already carries the same token. */
  lemma FreshLinkValidUntilExpiry(records: seq<MagicLink>, id: string, token: string, clientId: string,
                                  expiresInHours: int, createdBy: Option<string>, now: Instant, t: Instant)
    requires forall i :: 0 <= i < |records| ==> records[i].token != token
    ensures var l := NewLink(id, token, clientId, expiresInHours, createdBy, now);
            && (now <= t <= l.expiresAt ==> ValidateToken(records + [l], token, t) == Ok(Grant(clientId, id)))
            && (t > l.expiresAt ==> ValidateToken(records + [l], token, t) == Err(Expired))
  {
    var l := NewLink(id, token, clientId, expiresInHours, createdBy, now);
    FindIsFirst(records + [l], token, |records|);
  }

  /** With the default lifetime, a link is still good 24 hours after creation and
      expired one second later. */
  lemma DefaultLifetime(id: string, token: string, clientId: string, now: Instant)
    ensures var l := NewLink(id, token, clientId, DefaultExpiryHours, None, now);
            && ValidateToken([l], token, now + 86400).Ok?
            && ValidateToken([l], token, now + 86401) == Err(Expired)
  {
    FreshLinkValidUntilExpiry([], id, token, clientId, DefaultExpiryHours, None, now, now + 86400);
    FreshLinkValidUntilExpiry([], id, token, clientId, DefaultExpiryHours, None, now, now + 86401);
  }

  /** Expiry is final: once a token is refused as expired it stays refused later, and a
      token valid now was valid at every earlier instant. */
  lemma ExpiryIsFinal(records: seq<MagicLink>, token: string, t: Instant, t': Instant)
    requires t <= t'
    ensures ValidateToken(records, token, t) == Err(Expired) ==> ValidateToken(records, token, t') == Err(Expired)
    ensures ValidateToken(records, token, t').Ok? ==> ValidateToken(records, token, t) == ValidateToken(records, token, t')
  {
  }

  // ---------------------------------------------------------------- mark_as_used, revoke

  /** The link after `mark_as_used`: used now, from `ipAddress`. */
  function MarkedUsed(l: MagicLink, ipAddress: Option<string>, now: Instant): (m: MagicLink)
    ensures m.used && m.usedAt == Some(now) && m.ipAddress == ipAddress
    ensures m.(used := l.used, usedAt := l.usedAt, ipAddress := l.ipAddress) == l
  {
    l.(used := true, usedAt := Some(now), ipAddress := ipAddress)
  }

  /** The link after `revoke`: used now, the recorded address left as it was. */
  function Revoked(l: MagicLink, now: Instant): (m: MagicLink)
    ensures m.used && m.usedAt == Some(now) && m.ipAddress == l.ipAddress
    ensures m.(used := l.used, usedAt := l.usedAt) == l
  {
    l.(used := true, usedAt := Some(now))
  }

  /** Replacing the first link with a token by a used link with the same token makes
      every later validation of that token fail as already used. */
  lemma SpentLinkIsRefused(records: seq<MagicLink>, token: string, spent: MagicLink, t: Instant)
    requires Find(records, token).Some?
    requires spent.token == token && spent.used
    ensures ValidateToken(records[Find(records, token).value := spent], token, t) == Err(AlreadyUsed)
  {
    var i := Find(records, token).value;
    FindIsFirst(records[i := spent], token, i);
  }

  /** A link is one-way: no link that was used in `before` is unused in `after`. */
  ghost predicate UsedStaysUsed(before: seq<MagicLink>, after: seq<MagicLink>)
  {
    forall i, j :: 0 <= i < |before| && 0 <= j < |after| && before[i].id == after[j].id && before[i].used ==>
      after[j].used
  }

  // ---------------------------------------------------------------- delete_expired

  /** What `delete_many({'expires_at': {'$lt': now}})` keeps, in order. */
  function Unexpired(records: seq<MagicLink>, now: Instant): (r: seq<MagicLink>)
    ensures |r| <= |records|
    ensures forall l :: l in r <==> l in records && l.expiresAt >= now
  {
    if records == [] then []
    else if records[0].expiresAt < now then Unexpired(records[1..], now)
    else [records[0]] + Unexpired(records[1..], now)
  }

  /** What it deletes, in order. */
  function ExpiredLinks(records: seq<MagicLink>, now: Instant): (r: seq<MagicLink>)
    ensures forall l :: l in r <==> l in records && l.expiresAt < now
  {
    if records == [] then []
    else if records[0].expiresAt < now then [records[0]] + ExpiredLinks(records[1..], now)
    else ExpiredLinks(records[1..], now)
  }

  /** Every link is either kept or deleted, exactly once. */
  lemma {:induction false} ExpiryPartitions(records: seq<MagicLink>, now: Instant)
    ensures multiset(Unexpired(records, now)) + multiset(ExpiredLinks(records, now)) == multiset(records)
    ensures |Unexpired(records, now)| + |ExpiredLinks(records, now)| == |records|
  {
    if records != [] {
      ExpiryPartitions(records[1..], now);
      assert records == [records[0]] + records[1..];
    }
  }

  /** Pruning never takes away a token that validates at the same instant, nor changes
      what it grants. */
  lemma {:induction false} PruningKeepsValidLinks(records: seq<MagicLink>, token: string, now: Instant)
    requires ValidateToken(records, token, now).Ok?
    ensures ValidateToken(Unexpired(records, now), token, now) == ValidateToken(records, token, now)
  {
    var rest := records[1..];
    assert records == [records[0]] + rest;
    if records[0].token == token {
      assert Unexpired(records, now) == [records[0]] + Unexpired(rest, now);
      FindIsFirst(Unexpired(records, now), token, 0);
    } else {
      ValidatePastOther(records[0], rest, token, now);
      PruningKeepsValidLinks(rest, token, now);
      if records[0].expiresAt >= now {
        assert Unexpired(records, now) == [records[0]] + Unexpired(rest, now);
        ValidatePastOther(records[0], Unexpired(rest, now), token, now);
      } else {
        assert Unexpired(records, now) == Unexpired(rest, now);
      }
    }
  }

  /** A link with another token in front changes nothing about validation. */
  lemma ValidatePastOther(l: MagicLink, records: seq<MagicLink>, token: string, now: Instant)
    requires l.token != token
    ensures ValidateToken([l] + records, token, now) == ValidateToken(records, token, now)
  {
    FindPastOther(l, records, token);
    if Find(records, token).Some? {
      assert ([l] + records)[Find(records, token).value + 1] == records[Find(records, token).value];
    }
  }

  // ---------------------------------------------------------------- the collection

  /** The magic_links collection, in insertion order. */
  class MagicLinks {
    var records: seq<MagicLink>

    /** Ids are non-empty and distinct. */
    ghost predicate Valid()
      reads this
    {
      && (forall i :: 0 <= i < |records| ==> records[i].id != "")
      && (forall i, j :: 0 <= i < j < |records| ==> records[i].id != records[j].id)
    }

    constructor ()
      ensures Valid() && records == []
    {
      records := [];
    }

    /** `create`: appends a new unused link under a fresh id. */
    method Create(freshId: string, token: string, clientId: string, expiresInHours: int,
                  createdBy: Option<string>, now: Instant) returns (link: MagicLink)
      requires Valid()
      requires freshId != "" && forall i :: 0 <= i < |records| ==> records[i].id != freshId
      modifies this
      ensures Valid() && UsedStaysUsed(old(records), records)
      ensures link == NewLink(freshId, token, clientId, expiresInHours, createdBy, now)
      ensures records == old(records) + [link]
    {
      link := NewLink(freshId, token, clientId, expiresInHours, createdBy, now);
      records := records + [link];
    }

    /** `mark_as_used`: marks the first link with the token as used from `ipAddress`;
        `modified` tells whether the stored link changed. */
    method MarkAsUsed(token: string, ipAddress: Option<string>, now: Instant) returns (modified: bool)
      requires Valid()
      modifies this
      ensures Valid() && UsedStaysUsed(old(records), records)
      ensures Find(old(records), token).None? ==> !modified && records == old(records)
      ensures Find(old(records), token).Some? ==>
                var i := Find(old(records), token).value;
                && records == old(records)[i := MarkedUsed(old(records)[i], ipAddress, now)]
                && (modified <==> records[i] != old(records)[i])
      ensures Find(old(records), token).Some? ==> forall t :: ValidateToken(records, token, t) == Err(AlreadyUsed)
    {
      var found := Find(records, token);
      if found.None? {
        modified := false;
      } else {
        var i := found.value;
        var updated := MarkedUsed(records[i], ipAddress, now);
        modified := updated != records[i];
        var before := records;
        records := records[i := updated];
        forall t: Instant
          ensures ValidateToken(records, token, t) == Err(AlreadyUsed)
        {
          SpentLinkIsRefused(before, token, updated, t);
        }
      }
    }

    /** `revoke`: like `mark_as_used`, but the recorded address is left alone. */
    method Revoke(token: string, now: Instant) returns (modified: bool)
      requires Valid()
      modifies this
      ensures Valid() && UsedStaysUsed(old(records), records)
      ensures Find(old(records), token).None? ==> !modified && records == old(records)
      ensures Find(old(records), token).Some? ==>
                var i := Find(old(records), token).value;
                && records == old(records)[i := Revoked(old(records)[i], now)]
                && (modified <==> records[i] != old(records)[i])
      ensures Find(old(records), token).Some? ==> forall t :: ValidateToken(records, token, t) == Err(AlreadyUsed)
    {
      var found := Find(records, token);
      if found.None? {
        modified := false;
      } else {
        var i := found.value;
        var updated := Revoked(records[i], now);
        modified := updated != records[i];
        var before := records;
        records := records[i := updated];
        forall t: Instant
          ensures ValidateToken(records, token, t) == Err(AlreadyUsed)
        {
          SpentLinkIsRefused(before, token, updated, t);
        }
      }
    }

    /** `delete_expired`: removes every link that expired strictly before `now` and
        reports how many went. */
    method DeleteExpired(now: Instant) returns (deleted: nat)
      requires Valid()
      modifies this
      ensures Valid() && UsedStaysUsed(old(records), records)
      ensures records == Unexpired(old(records), now)
      ensures deleted == |ExpiredLinks(old(records), now)|
    {
      var before := records;
      records := Unexpired(before, now);
      ExpiryPartitions(before, now);
      deleted := |before| - |records|;
      UnexpiredKeepsValid(before, now);
    }
  }

  /** Pruning keeps ids non-empty and distinct, and never turns a used link back into
      an unused one. */
  lemma UnexpiredKeepsValid(records: seq<MagicLink>, now: Instant)
    requires forall i :: 0 <= i < |records| ==> records[i].id != ""
    requires forall i, j :: 0 <= i < j < |records| ==> records[i].id != records[j].id
    ensures var r := Unexpired(records, now);
            && (forall i :: 0 <= i < |r| ==> r[i].id != "")
            && (forall i, j :: 0 <= i < j < |r| ==> r[i].id != r[j].id)
            && UsedStaysUsed(records, r)
  {
    var r := Unexpired(records, now);
    assert DistinctIds(records);
    UnexpiredDistinct(records, now);
    forall j | 0 <= j < |r|
      ensures exists k :: 0 <= k < |records| && records[k] == r[j]
    {
      assert r[j] in records;
    }
  }

  /** No two links share an id. */
  predicate DistinctIds(s: seq<MagicLink>)
  {
    forall i, j :: 0 <= i < j < |s| ==> s[i].id != s[j].id
  }

  /** Pruning keeps the ids distinct. */
  lemma {:induction false} UnexpiredDistinct(records: seq<MagicLink>, now: Instant)
    requires DistinctIds(records)
    ensures DistinctIds(Unexpired(records, now))
  {
    if records != [] {
      var rest := records[1..];
      DistinctTail(records);
      UnexpiredDistinct(rest, now);
      var kept := Unexpired(rest, now);
      if records[0].expiresAt >= now {
        forall l | l in kept
          ensures l.id != records[0].id
        {
          HeadIdUnique(records, l);
        }
        DistinctCons(records[0], kept);
      }
    }
  }

  lemma DistinctTail(s: seq<MagicLink>)
    requires s != [] && DistinctIds(s)
    ensures DistinctIds(s[1..])
  {
    forall i, j | 0 <= i < j < |s| - 1
      ensures s[1..][i].id != s[1..][j].id
    {
      assert s[1..][i] == s[i + 1] && s[1..][j] == s[j + 1];
    }
  }

  /** With distinct ids, no later link shares the first one's id. */
  lemma HeadIdUnique(records: seq<MagicLink>, l: MagicLink)
    requires records != [] && DistinctIds(records)
    requires l in records[1..]
    ensures l.id != records[0].id
  {
    var k :| 0 <= k < |records[1..]| && records[1..][k] == l;
    assert records[k + 1] == l;
  }

  /** A link whose id no link of `s` shares, put in front of `s` with distinct ids,
      keeps the ids distinct. */
  lemma DistinctCons(h: MagicLink, s: seq<MagicLink>)
    requires DistinctIds(s)
    requires forall l :: l in s ==> l.id != h.id
    ensures DistinctIds([h] + s)
  {
    var r := [h] + s;
    forall i, j | 0 <= i < j < |r|
      ensures r[i].id != r[j].id
    {
      assert r[j] == s[j - 1];
      if i > 0 {
        assert r[i] == s[i - 1];
      }
    }
  }
}
