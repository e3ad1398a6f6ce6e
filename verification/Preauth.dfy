/**
  The key under which a pre-authorised amount is parked, and the positional store it addresses (preauth.py).

  The connector is the text that formatting it produces, so the number 1 and the text "1" are one connector.
 */
module Preauth {
  import opened Basics

  /** A place at which a session can start. */
  datatype Place = Place(tenant: string, charger: string, connector: string)

  function Joined(p: Place): string {
    p.tenant + ":" + p.charger + ":" + p.connector
  }

  function PreauthKey(p: Place): string {
    "terminal:preauth:" + Joined(p)
  }

  predicate NoColon(s: string) {
    ':' !in s
  }

  // ---------------------------------------------------------------- which places share a key

  lemma KeyIsJoined(p: Place, q: Place)
    ensures PreauthKey(p) == PreauthKey(q) <==> Joined(p) == Joined(q)
  {
    var n := |"terminal:preauth:"|;
    assert PreauthKey(p)[n..] == Joined(p) && PreauthKey(q)[n..] == Joined(q);
  }

  /** Where the two separators of a key stand. */
  lemma Separators(p: Place)
    ensures var s := Joined(p);
            var i, j := |p.tenant|, |p.tenant| + 1 + |p.charger|;
            && i < j < |s| && s[i] == ':' && s[j] == ':'
            && s[..i] == p.tenant && s[i + 1..j] == p.charger && s[j + 1..] == p.connector
  {
  }

  /**
    Free text as the charger does not matter: for tenants and connectors without a colon, different places have
    different keys.
   */
  lemma DifferentPlacesDifferentKeys(p: Place, q: Place)
    requires NoColon(p.tenant) && NoColon(p.connector) && NoColon(q.tenant) && NoColon(q.connector)
    ensures PreauthKey(p) == PreauthKey(q) <==> p == q
  {
    KeyIsJoined(p, q);
    if Joined(p) == Joined(q) {
      Separators(p);
      Separators(q);
      NotBefore(p, q);
      NotBefore(q, p);
      NotAfter(p, q);
      NotAfter(q, p);
    }
  }

  /**
    How a key reads when tenant and connector have no colon: after the marker, the tenant is what comes before the
    first colon, the connector what comes after the last, and the charger what is between those two.
   */
  lemma KeyReads(p: Place)
    requires NoColon(p.tenant) && NoColon(p.connector)
    ensures var key, n := PreauthKey(p), |"terminal:preauth:"|;
            var i, j := n + |p.tenant|, |PreauthKey(p)| - |p.connector| - 1;
            && key[..n] == "terminal:preauth:" && n <= i < j < |key| && key[i] == ':' && key[j] == ':'
            && NoColon(key[n..i]) && NoColon(key[j + 1..])
            && p == Place(key[n..i], key[i + 1..j], key[j + 1..])
  {
    Separators(p);
    var key, n := PreauthKey(p), |"terminal:preauth:"|;
    assert key[n..] == Joined(p);
    assert key[n..n + |p.tenant|] == Joined(p)[..|p.tenant|];
  }

  /** A tenant without a colon ends at the first colon of the key, a connector without one starts after the last. */
  lemma NotBefore(p: Place, q: Place)
    requires Joined(p) == Joined(q) && NoColon(q.tenant)
    ensures |q.tenant| <= |p.tenant|
  {
    Separators(p);
    Separators(q);
    assert forall i :: 0 <= i < |q.tenant| ==> Joined(q)[i] != ':';
  }

  lemma NotAfter(p: Place, q: Place)
    requires Joined(p) == Joined(q) && NoColon(q.connector)
    ensures |q.connector| <= |p.connector|
  {
    Separators(p);
    Separators(q);
    var s := Joined(q);
    assert forall i :: |s| - |q.connector| <= i < |s| ==> s[i] == q.connector[i - (|s| - |q.connector|)];
    assert forall i :: |s| - |q.connector| <= i < |s| ==> s[i] != ':';
  }

  /** No other place has the key of `p`. */
  ghost predicate KeyIsUnique(p: Place) {
    forall q :: PreauthKey(q) == PreauthKey(p) ==> q == p
  }

  /** Among all places whatever, a key belongs to one place only if and only if no part of that place has a colon. */
  lemma KeyIsUniqueIff(p: Place)
    ensures KeyIsUnique(p) <==> NoColon(p.tenant) && NoColon(p.charger) && NoColon(p.connector)
  {
    if NoColon(p.tenant) && NoColon(p.charger) && NoColon(p.connector) {
      forall q | PreauthKey(q) == PreauthKey(p) ensures q == p {
        SeparatorsDetermine(p, q);
      }
    } else {
      var q := Collision(p);
    }
  }

  lemma SeparatorsDetermine(p: Place, q: Place)
    requires NoColon(p.tenant) && NoColon(p.charger) && NoColon(p.connector)
    requires PreauthKey(q) == PreauthKey(p)
    ensures q == p
  {
    KeyIsJoined(p, q);
    Separators(p);
    Separators(q);
    OnlyColons(p, |q.tenant|);
    OnlyColons(p, |q.tenant| + 1 + |q.charger|);
  }

  lemma OnlyColons(p: Place, k: nat)
    requires NoColon(p.tenant) && NoColon(p.charger) && NoColon(p.connector)
    requires k < |Joined(p)| && Joined(p)[k] == ':'
    ensures k == |p.tenant| || k == |p.tenant| + 1 + |p.charger|
  {
  }

  /** A colon in any part lets another place share the key. */
  lemma Collision(p: Place) returns (q: Place)
    requires ':' in p.tenant || ':' in p.charger || ':' in p.connector
    ensures q != p && PreauthKey(q) == PreauthKey(p)
  {
    if ':' in p.tenant {
      var a, b := Halves(p.tenant);
      q := Place(a, b + ":" + p.charger, p.connector);
      assert Joined(q) == Joined(p);
    } else if ':' in p.connector {
      var a, b := Halves(p.connector);
      q := Place(p.tenant, p.charger + ":" + a, b);
      assert Joined(q) == Joined(p);
    } else {
      var a, b := Halves(p.charger);
      q := Place(p.tenant + ":" + a, b, p.connector);
      assert Joined(q) == Joined(p);
    }
  }

  lemma Halves(s: string) returns (a: string, b: string)
    requires ':' in s
    ensures s == a + ":" + b && |a| < |s| && |b| < |s|
  {
    var k :| 0 <= k < |s| && s[k] == ':';
    a, b := s[..k], s[k + 1..];
  }

  // ---------------------------------------------------------------- the positional store

  datatype Park = Park(place: Place, amount: int)

  /** A later park under the same key overwrites an earlier one. */
  function Store(parks: seq<Park>): map<string, int> {
    if parks == [] then map[]
    else Store(parks[..|parks| - 1])[PreauthKey(parks[|parks| - 1].place) := parks[|parks| - 1].amount]
  }

  /** The amount last parked for exactly this place. */
  function Latest(parks: seq<Park>, place: Place): Option<int> {
    if parks == [] then None
    else if parks[|parks| - 1].place == place then Some(parks[|parks| - 1].amount)
    else Latest(parks[..|parks| - 1], place)
  }

  /** It is that of a park for the place with no later one for it, if there is any park for it. */
  lemma {:induction false} LatestMeans(parks: seq<Park>, place: Place, k: nat)
    requires k < |parks| && parks[k].place == place && forall j :: k < j < |parks| ==> parks[j].place != place
    ensures Latest(parks, place) == Some(parks[k].amount)
  {
    if k < |parks| - 1 {
      LatestMeans(parks[..|parks| - 1], place, k);
    }
  }

  /**
    Reading the store for a place gives the amount last parked for exactly that tenant, charger and connector, and
    nothing if there was none: an amount parked elsewhere is never found.
   */
  lemma {:induction false} ReadsLatestParkOfThatPlace(parks: seq<Park>, place: Place)
    requires NoColon(place.tenant) && NoColon(place.connector)
    requires forall k :: 0 <= k < |parks| ==> NoColon(parks[k].place.tenant) && NoColon(parks[k].place.connector)
    ensures var stored, key := Store(parks), PreauthKey(place);
            Latest(parks, place) == if key in stored then Some(stored[key]) else None
  {
    if parks != [] {
      ReadsLatestParkOfThatPlace(parks[..|parks| - 1], place);
      DifferentPlacesDifferentKeys(parks[|parks| - 1].place, place);
    }
  }
}
