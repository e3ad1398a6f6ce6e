/**
  Masking of sensitive fields (logging.py) and the scrubbing of error-tracker events built on it (observability.py).

  `lower` stands for Python's `str.lower`; every theorem holds whatever that function is.
 */
module Masking {
  import opened Basics

  /** A value as it may occur in a log field or an event; `Other` is any scalar that is not a text. */
  datatype Value =
    | Text(text: string)
    | Other(scalar: int)
    | List(items: seq<Value>)
    | Map(entries: Dict)

  type Dict = map<string, Value>

  const MASKED := Text("***")

  const SENSITIVE_KEYS: set<string> := {
    "password", "passwd", "secret", "token", "access_token", "refresh_token", "authorization", "api_key", "apikey",
    "x-internal-service-token", "internal_service_token", "otp", "otp_code", "pin", "card", "card_number", "cvv",
    "phone", "phone_number", "email", "ssn"
  }

  // ---------------------------------------------------------------- specification

  function Lowered(lower: string -> string, extra: set<string>): set<string> {
    set k | k in extra :: lower(k)
  }

  predicate Sensitive(lower: string -> string, keys: set<string>, key: string) {
    lower(key) in keys
  }

  /** `v` with every value under a sensitive key masked, at every depth that is reached through mappings. */
  function Mask(lower: string -> string, keys: set<string>, v: Value): Value {
    match v
    case Map(m) => Map(map k | k in m :: if Sensitive(lower, keys, k) then MASKED else Mask(lower, keys, m[k]))
    case _ => v
  }

  /** Equal but for values under sensitive keys. */
  ghost predicate SameButSecrets(lower: string -> string, keys: set<string>, a: Value, b: Value) {
    if a.Map? && b.Map? then
      && a.entries.Keys == b.entries.Keys
      && forall k :: k in a.entries ==>
           Sensitive(lower, keys, k) || SameButSecrets(lower, keys, a.entries[k], b.entries[k])
    else a == b
  }

  /** What stands at a path of keys. */
  function At(v: Value, path: seq<string>): Option<Value> {
    if path == [] then Some(v)
    else if v.Map? && path[0] in v.entries then At(v.entries[path[0]], path[1..])
    else None
  }

  // ---------------------------------------------------------------- the loop

  method MaskMapping(data: Value, lower: string -> string, extra: set<string>) returns (out: Dict)
    requires data.Map?
    ensures Map(out) == Mask(lower, SENSITIVE_KEYS + Lowered(lower, extra), data)
    decreases data
  {
    var keys := SENSITIVE_KEYS + Lowered(lower, extra);
    var todo := data.entries.Keys;
    out := map[];
    while todo != {}
      invariant todo <= data.entries.Keys && out.Keys == data.entries.Keys - todo
      invariant forall k :: k in out ==>
                  out[k] == if Sensitive(lower, keys, k) then MASKED else Mask(lower, keys, data.entries[k])
    {
      var key :| key in todo;
      var value := data.entries[key];
      if lower(key) in keys {
        out := out[key := MASKED];
      } else if value.Map? {
        var inner := MaskMapping(value, lower, extra);
        out := out[key := Map(inner)];
      } else {
        out := out[key := value];
      }
      todo := todo - {key};
    }
    assert out == Mask(lower, keys, data).entries;
  }

  /**
    Which values are masked: those under a key that equals, when both are lowered, one of the extra keys, or whose
    lowered form is one of the fixed ones.  Any other value that is not a mapping stays as it is.
   */
  lemma MaskedIffListed(lower: string -> string, extra: set<string>, key: string, v: Value)
    requires !v.Map? && v != MASKED
    ensures var masked := Mask(lower, SENSITIVE_KEYS + Lowered(lower, extra), Map(map[key := v]));
            var listed := lower(key) in SENSITIVE_KEYS || exists e :: e in extra && lower(e) == lower(key);
            masked == Map(map[key := if listed then MASKED else v])
  {
    var keys := SENSITIVE_KEYS + Lowered(lower, extra);
    var d: Dict := map[key := v];
    var masked := Mask(lower, keys, Map(d)).entries;
    assert masked.Keys == {key} && d[key] == v && Mask(lower, keys, v) == v;
    assert masked[key] == if Sensitive(lower, keys, key) then MASKED else v;
    assert masked == map[key := masked[key]];
  }

  // ---------------------------------------------------------------- two runs

  /**
    Inputs that differ only in values under sensitive keys give equal outputs; and nothing else is hidden: inputs with
    equal outputs differ only there.
   */
  lemma {:induction false} EqualMaskedIffSameButSecrets(lower: string -> string, keys: set<string>, a: Value, b: Value)
    ensures Mask(lower, keys, a) == Mask(lower, keys, b) <==> SameButSecrets(lower, keys, a, b)
  {
    if a.Map? && b.Map? {
      forall k | k in a.entries && k in b.entries
        ensures Mask(lower, keys, a.entries[k]) == Mask(lower, keys, b.entries[k])
                <==> SameButSecrets(lower, keys, a.entries[k], b.entries[k])
      {
        EqualMaskedIffSameButSecrets(lower, keys, a.entries[k], b.entries[k]);
      }
      var ma, mb := Mask(lower, keys, a).entries, Mask(lower, keys, b).entries;
      assert ma.Keys == a.entries.Keys && mb.Keys == b.entries.Keys;
      if SameButSecrets(lower, keys, a, b) {
        assert ma == mb;
      } else if ma.Keys == mb.Keys {
        var k :| k in a.entries && !Sensitive(lower, keys, k)
              && !SameButSecrets(lower, keys, a.entries[k], b.entries[k]);
        assert ma[k] != mb[k];
      }
    }
  }

  /** Masking twice, with any two key sets, is masking once with both; so masking is idempotent. */
  lemma {:induction false} MaskTwice(lower: string -> string, k1: set<string>, k2: set<string>, v: Value)
    ensures Mask(lower, k2, Mask(lower, k1, v)) == Mask(lower, k1 + k2, v)
  {
    if v.Map? {
      forall k | k in v.entries
        ensures Mask(lower, k2, Mask(lower, k1, v.entries[k])) == Mask(lower, k1 + k2, v.entries[k])
      {
        MaskTwice(lower, k1, k2, v.entries[k]);
      }
      assert Mask(lower, k2, Mask(lower, k1, v)).entries == Mask(lower, k1 + k2, v).entries;
    }
  }

  /** The index of the first sensitive key of a path; its length if there is none. */
  function FirstSensitive(lower: string -> string, keys: set<string>, path: seq<string>): (n: nat)
    ensures n <= |path|
  {
    if path == [] || Sensitive(lower, keys, path[0]) then 0 else 1 + FirstSensitive(lower, keys, path[1..])
  }

  /**
    What stands at any path after masking: with no sensitive key on the path, the masked form of what stood there;
    right under the first sensitive key, the marker if anything stood there; nothing below that.
   */
  lemma {:induction false} MaskedAt(lower: string -> string, keys: set<string>, v: Value, path: seq<string>)
    ensures var n := FirstSensitive(lower, keys, path);
            At(Mask(lower, keys, v), path) ==
            if n == |path| then (match At(v, path) case None => None case Some(w) => Some(Mask(lower, keys, w)))
            else if n + 1 == |path| && At(v, path).Some? then Some(MASKED)
            else None
    decreases |path|
  {
    if path != [] && v.Map? && path[0] in v.entries {
      if Sensitive(lower, keys, path[0]) {
        assert At(Mask(lower, keys, v), path) == At(MASKED, path[1..]);
      } else {
        MaskedAt(lower, keys, v.entries[path[0]], path[1..]);
      }
    }
  }

  // ---------------------------------------------------------------- what masking does not reach

  /** Some mapping anywhere in `v`, in lists too, holds something other than the marker under a sensitive key. */
  ghost predicate Exposes(lower: string -> string, keys: set<string>, v: Value) {
    match v
    case Map(m) =>
      exists k :: k in m && ((Sensitive(lower, keys, k) && m[k] != MASKED) || Exposes(lower, keys, m[k]))
    case List(items) => exists i :: 0 <= i < |items| && Exposes(lower, keys, items[i])
    case _ => false
  }

  /** A list that is reached through keys which are not sensitive does. */
  ghost predicate ListExposes(lower: string -> string, keys: set<string>, v: Value) {
    match v
    case Map(m) => exists k :: k in m && !Sensitive(lower, keys, k) && ListExposes(lower, keys, m[k])
    case List(_) => Exposes(lower, keys, v)
    case _ => false
  }

  /** Exactly when masking leaves something exposed: when a list that it does not descend into does. */
  lemma {:induction false} MaskExposesIff(lower: string -> string, keys: set<string>, v: Value)
    ensures Exposes(lower, keys, Mask(lower, keys, v)) <==> ListExposes(lower, keys, v)
  {
    if v.Map? {
      var masked := Mask(lower, keys, v).entries;
      forall k | k in v.entries && !Sensitive(lower, keys, k)
        ensures Exposes(lower, keys, masked[k]) <==> ListExposes(lower, keys, v.entries[k])
      {
        MaskExposesIff(lower, keys, v.entries[k]);
      }
      assert forall k :: k in masked && Sensitive(lower, keys, k) ==> masked[k] == MASKED;
    }
  }

  /** A list of mappings under a harmless key is enough. */
  lemma ListsAreNotReached(lower: string -> string, keys: set<string>, harmless: string, key: string, secret: Value)
    requires !Sensitive(lower, keys, harmless) && Sensitive(lower, keys, key) && secret != MASKED
    ensures var v := Map(map[harmless := List([Map(map[key := secret])])]);
            Mask(lower, keys, v) == v && Exposes(lower, keys, v)
  {
    var inner := Map(map[key := secret]);
    assert key in inner.entries && inner.entries[key] == secret;
    assert List([inner]).items[0] == inner;
    assert Exposes(lower, keys, List([inner]));
    var v := Map(map[harmless := List([inner])]);
    assert harmless in v.entries && v.entries[harmless] == List([inner]);
    assert Mask(lower, keys, v).entries == v.entries;
  }

  // ---------------------------------------------------------------- events

  function SetDefault(d: Dict, key: string, value: Option<string>): Dict {
    if value.Some? && key !in d then d[key := Text(value.value)] else d
  }

  /** The tags of the scrubbed event: the masked ones, if they are a mapping, and the correlation ids not yet there. */
  function Tags(masked: Dict, requestId: Option<string>, tenantId: Option<string>): Dict {
    SetDefault(SetDefault(MaskedTags(masked), "request_id", requestId), "tenant_id", tenantId)
  }

  function Scrub(lower: string -> string, keys: set<string>, requestId: Option<string>, tenantId: Option<string>,
                 event: Value): Value
  {
    if !event.Map? then event
    else
      var masked := Mask(lower, keys, event).entries;
      Map(masked["tags" := Map(Tags(masked, requestId, tenantId))])
  }

  /**
    Every field but the tags is the masked one; the tags are a mapping, keep their masked entries if they were one,
    and have besides just the correlation ids that are known and were not there.
   */
  ghost predicate IsScrubbed(masked: Dict, requestId: Option<string>, tenantId: Option<string>, out: Dict) {
    && out.Keys == masked.Keys + {"tags"} && out["tags"].Map?
    && (forall k :: k in masked && k != "tags" ==> out[k] == masked[k])
    && var tags := out["tags"].entries;
       var kept: Dict := if "tags" in masked && masked["tags"].Map? then masked["tags"].entries else map[];
       && tags.Keys == kept.Keys + (if requestId.Some? then {"request_id"} else {})
                                 + (if tenantId.Some? then {"tenant_id"} else {})
       && (forall k :: k in kept ==> tags[k] == kept[k])
       && (requestId.Some? && "request_id" !in kept ==> tags["request_id"] == Text(requestId.value))
       && (tenantId.Some? && "tenant_id" !in kept ==> tags["tenant_id"] == Text(tenantId.value))
  }

  lemma ScrubMeans(lower: string -> string, keys: set<string>, requestId: Option<string>, tenantId: Option<string>,
                   event: Value)
    requires event.Map?
    ensures var out := Scrub(lower, keys, requestId, tenantId, event);
            out.Map? && IsScrubbed(Mask(lower, keys, event).entries, requestId, tenantId, out.entries)
  {
  }

  /**
    An event that is not a mapping passes unchanged.  Otherwise every field but the tags is masked; the tags keep all
    their masked entries, and gain a correlation id only where there is one and none was there.
   */
  method ScrubEvent(event: Value, lower: string -> string, extra: set<string>,
                    requestId: Option<string>, tenantId: Option<string>)
    returns (out: Value)
    ensures out == Scrub(lower, SENSITIVE_KEYS + Lowered(lower, extra), requestId, tenantId, event)
    ensures if event.Map? then
              var masked := Mask(lower, SENSITIVE_KEYS + Lowered(lower, extra), event).entries;
              out.Map? && IsScrubbed(masked, requestId, tenantId, out.entries)
            else out == event
  {
    if event.Map? {
      ScrubMeans(lower, SENSITIVE_KEYS + Lowered(lower, extra), requestId, tenantId, event);
    }
    if !event.Map? {
      return event;
    }
    var scrubbed := MaskMapping(event, lower, extra);
    var tags: Dict := map[];
    if "tags" in scrubbed && scrubbed["tags"].Map? {
      tags := scrubbed["tags"].entries;
    }
    if requestId.Some? && "request_id" !in tags {
      tags := tags["request_id" := Text(requestId.value)];
    }
    if tenantId.Some? && "tenant_id" !in tags {
      tags := tags["tenant_id" := Text(tenantId.value)];
    }
    out := Map(scrubbed["tags" := Map(tags)]);
  }

  /** Events that differ only in sensitive values are reported equally. */
  lemma ScrubHidesSecrets(lower: string -> string, keys: set<string>, requestId: Option<string>,
                          tenantId: Option<string>, a: Value, b: Value)
    requires SameButSecrets(lower, keys, a, b)
    ensures Scrub(lower, keys, requestId, tenantId, a) == Scrub(lower, keys, requestId, tenantId, b)
  {
    EqualMaskedIffSameButSecrets(lower, keys, a, b);
  }

  /** The event without its tags, unless they are a mapping: other tags are replaced. */
  function Kept(event: Dict): Dict {
    if "tags" in event && event["tags"].Map? then event else event - {"tags"}
  }

  /**
    Exactly when a scrubbed event exposes something: when a list in it does, when "tags" itself is listed as
    sensitive, or when a correlation id is added under a key that is.
   */
  lemma ScrubExposesIff(lower: string -> string, keys: set<string>, requestId: Option<string>,
                        tenantId: Option<string>, event: Value)
    requires event.Map?
    ensures var tags := MaskedTags(Mask(lower, keys, event).entries);
            Exposes(lower, keys, Scrub(lower, keys, requestId, tenantId, event))
            <==> || Sensitive(lower, keys, "tags")
                 || ListExposes(lower, keys, Map(Kept(event.entries)))
                 || AddsSecret(lower, keys, tags, "request_id", requestId)
                 || AddsSecret(lower, keys, tags, "tenant_id", tenantId)
  {
    var masked := Mask(lower, keys, event).entries;
    var tags := MaskedTags(masked);
    var full := Tags(masked, requestId, tenantId);
    var out := masked["tags" := Map(full)];
    assert Scrub(lower, keys, requestId, tenantId, event) == Map(out) && out["tags"] == Map(full);
    if !Sensitive(lower, keys, "tags") {
      KeptExposesIff(lower, keys, event.entries);
      AddedExposesIff(lower, keys, tags, "request_id", requestId);
      AddedExposesIff(lower, keys, SetDefault(tags, "request_id", requestId), "tenant_id", tenantId);
      EntryExposesIff(lower, keys, masked, "tags", Map(full));
    }
  }

  /** The entries of `d` expose something, other than the one at `key`. */
  ghost predicate RestExposes(lower: string -> string, keys: set<string>, d: Dict, key: string) {
    exists k :: k in d && k != key && ((Sensitive(lower, keys, k) && d[k] != MASKED) || Exposes(lower, keys, d[k]))
  }

  lemma EntryExposesIff(lower: string -> string, keys: set<string>, d: Dict, key: string, v: Value)
    ensures Exposes(lower, keys, Map(d[key := v]))
       <==> RestExposes(lower, keys, d, key) || (Sensitive(lower, keys, key) && v != MASKED) || Exposes(lower, keys, v)
  {
    var e := d[key := v];
    assert key in e && e[key] == v;
    assert forall k :: k in d && k != key ==> k in e && e[k] == d[k];
  }

  lemma AddedExposesIff(lower: string -> string, keys: set<string>, tags: Dict, key: string, id: Option<string>)
    ensures Exposes(lower, keys, Map(SetDefault(tags, key, id)))
       <==> Exposes(lower, keys, Map(tags)) || AddsSecret(lower, keys, tags, key, id)
  {
    if id.Some? && key !in tags {
      EntryExposesIff(lower, keys, tags, key, Text(id.value));
    }
  }

  /** What is kept of an event exposes something if a list does, in the tags or elsewhere. */
  lemma KeptExposesIff(lower: string -> string, keys: set<string>, event: Dict)
    requires !Sensitive(lower, keys, "tags")
    ensures var masked := Mask(lower, keys, Map(event)).entries;
            ListExposes(lower, keys, Map(Kept(event)))
            <==> RestExposes(lower, keys, masked, "tags") || Exposes(lower, keys, Map(MaskedTags(masked)))
  {
    var kept := Kept(event);
    var masked := Mask(lower, keys, Map(event)).entries;
    MaskExposesIff(lower, keys, Map(kept));
    if "tags" in kept {
      var tags := Map(MaskedTags(masked));
      assert masked["tags"] == tags && masked == masked["tags" := tags];
      EntryExposesIff(lower, keys, masked, "tags", tags);
    } else {
      assert "tags" in event ==> masked["tags"] == Mask(lower, keys, event["tags"]) == event["tags"];
      assert MaskedTags(masked) == map[];
      assert Mask(lower, keys, Map(kept)).entries == masked - {"tags"};
      WithoutExposesIff(lower, keys, masked, "tags");
    }
  }

  lemma WithoutExposesIff(lower: string -> string, keys: set<string>, d: Dict, key: string)
    ensures Exposes(lower, keys, Map(d - {key})) <==> RestExposes(lower, keys, d, key)
  {
    var e := d - {key};
    assert forall k :: k in d && k != key ==> k in e && e[k] == d[k];
  }

  /** The tags of a masked event, empty if they are not a mapping. */
  function MaskedTags(masked: Dict): Dict {
    if "tags" in masked && masked["tags"].Map? then masked["tags"].entries else map[]
  }

  /** A correlation id that scrubbing adds and that masking would change. */
  predicate AddsSecret(lower: string -> string, keys: set<string>, tags: Dict, key: string, id: Option<string>) {
    id.Some? && key !in tags && Sensitive(lower, keys, key) && Text(id.value) != MASKED
  }

  /**
    The correlation ids are added after masking.  So scrubbing is idempotent except when such an id is added under a
    key that is itself listed as sensitive (and "tags" is not).
   */
  lemma ScrubIdempotentIff(lower: string -> string, keys: set<string>, requestId: Option<string>,
                           tenantId: Option<string>, event: Value)
    requires event.Map?
    ensures var once := Scrub(lower, keys, requestId, tenantId, event);
            var tags := MaskedTags(Mask(lower, keys, event).entries);
            Scrub(lower, keys, requestId, tenantId, once) == once
            <==> Sensitive(lower, keys, "tags")
                 || !(AddsSecret(lower, keys, tags, "request_id", requestId)
                      || AddsSecret(lower, keys, tags, "tenant_id", tenantId))
  {
    var masked := Mask(lower, keys, event).entries;
    MaskTwice(lower, keys, keys, event);
    assert keys + keys == keys;
    if Sensitive(lower, keys, "tags") {
      assert MaskedTags(masked) == map[];
      ScrubAgainSensitive(lower, keys, requestId, tenantId, masked);
    } else {
      MaskedTagsStable(lower, keys, event);
      ScrubAgain(lower, keys, requestId, tenantId, masked);
      TagsStableIff(lower, keys, MaskedTags(masked), requestId, tenantId);
    }
  }

  lemma ScrubAgainSensitive(lower: string -> string, keys: set<string>, requestId: Option<string>,
                            tenantId: Option<string>, masked: Dict)
    requires Mask(lower, keys, Map(masked)) == Map(masked)
    requires Sensitive(lower, keys, "tags") && MaskedTags(masked) == map[]
    ensures var once := Map(masked["tags" := Map(Tags(masked, requestId, tenantId))]);
            Scrub(lower, keys, requestId, tenantId, once) == once
  {
    var full := Tags(masked, requestId, tenantId);
    Remasked(lower, keys, masked, full);
    var again := masked["tags" := MASKED];
    assert MaskedTags(again) == map[];
    assert again["tags" := Map(full)] == masked["tags" := Map(full)];
  }

  lemma ScrubAgain(lower: string -> string, keys: set<string>, requestId: Option<string>,
                   tenantId: Option<string>, masked: Dict)
    requires Mask(lower, keys, Map(masked)) == Map(masked) && !Sensitive(lower, keys, "tags")
    ensures var full := Tags(masked, requestId, tenantId);
            var once := Map(masked["tags" := Map(full)]);
            Scrub(lower, keys, requestId, tenantId, once) == once <==> Mask(lower, keys, Map(full)) == Map(full)
  {
    var full := Tags(masked, requestId, tenantId);
    Remasked(lower, keys, masked, full);
    var remasked := Mask(lower, keys, Map(full)).entries;
    var again := masked["tags" := Map(remasked)];
    assert MaskedTags(again) == remasked;
    assert Tags(again, requestId, tenantId) == remasked;
    assert again["tags" := Map(remasked)] == again;
    assert again["tags"] == Map(remasked) && masked["tags" := Map(full)]["tags"] == Map(full);
  }

  /** Masking an already masked event with other tags masks just the tags. */
  lemma Remasked(lower: string -> string, keys: set<string>, masked: Dict, tags: Dict)
    requires Mask(lower, keys, Map(masked)) == Map(masked)
    ensures Mask(lower, keys, Map(masked["tags" := Map(tags)]))
         == Map(masked["tags" := if Sensitive(lower, keys, "tags") then MASKED else Mask(lower, keys, Map(tags))])
  {
    var event := masked["tags" := Map(tags)];
    forall k | k in event && k != "tags" ensures Mask(lower, keys, Map(event)).entries[k] == masked[k] {
      assert Mask(lower, keys, Map(masked)).entries[k] == masked[k];
    }
    assert Mask(lower, keys, Map(event)).entries
        == masked["tags" := if Sensitive(lower, keys, "tags") then MASKED else Mask(lower, keys, Map(tags))];
  }

  /** The tags of a masked event do not change when masked again. */
  lemma MaskedTagsStable(lower: string -> string, keys: set<string>, event: Value)
    requires event.Map? && !Sensitive(lower, keys, "tags")
    ensures var tags := MaskedTags(Mask(lower, keys, event).entries);
            Mask(lower, keys, Map(tags)) == Map(tags)
  {
    var masked := Mask(lower, keys, event).entries;
    if "tags" in masked && masked["tags"].Map? {
      MaskTwice(lower, keys, keys, event.entries["tags"]);
      assert keys + keys == keys;
    } else {
      assert Mask(lower, keys, Map(map[])).entries == map[];
    }
  }

  /** With the correlation ids added, stable tags stay stable unless one of the ids is secret. */
  lemma TagsStableIff(lower: string -> string, keys: set<string>, tags: Dict, requestId: Option<string>,
                      tenantId: Option<string>)
    requires Mask(lower, keys, Map(tags)) == Map(tags)
    ensures var full := SetDefault(SetDefault(tags, "request_id", requestId), "tenant_id", tenantId);
            Mask(lower, keys, Map(full)) == Map(full)
            <==> !(AddsSecret(lower, keys, tags, "request_id", requestId)
                   || AddsSecret(lower, keys, tags, "tenant_id", tenantId))
  {
    var some := SetDefault(tags, "request_id", requestId);
    EntryStableIff(lower, keys, tags, "request_id", requestId);
    if Mask(lower, keys, Map(some)) == Map(some) {
      EntryStableIff(lower, keys, some, "tenant_id", tenantId);
    } else {
      EntryUnstable(lower, keys, some, "tenant_id", tenantId);
    }
  }

  lemma EntryStableIff(lower: string -> string, keys: set<string>, tags: Dict, key: string, id: Option<string>)
    requires Mask(lower, keys, Map(tags)) == Map(tags)
    ensures var full := SetDefault(tags, key, id);
            Mask(lower, keys, Map(full)) == Map(full) <==> !AddsSecret(lower, keys, tags, key, id)
  {
    var full := SetDefault(tags, key, id);
    if full != tags {
      var remasked := Mask(lower, keys, Map(full)).entries;
      var marked := if Sensitive(lower, keys, key) then MASKED else full[key];
      forall k | k in tags ensures remasked[k] == tags[k] {
        assert Mask(lower, keys, Map(tags)).entries[k] == tags[k];
      }
      assert full[key] == Text(id.value) == Mask(lower, keys, full[key]);
      assert remasked[key] == marked;
      assert remasked == tags[key := marked];
      assert tags[key := marked][key] == marked && full[key] == Text(id.value);
    }
  }

  lemma EntryUnstable(lower: string -> string, keys: set<string>, tags: Dict, key: string, id: Option<string>)
    requires Mask(lower, keys, Map(tags)) != Map(tags)
    ensures Mask(lower, keys, Map(SetDefault(tags, key, id))) != Map(SetDefault(tags, key, id))
  {
    var full := SetDefault(tags, key, id);
    var masked := Mask(lower, keys, Map(tags)).entries;
    assert masked.Keys == tags.Keys;
    var k :| k in tags && masked[k] != tags[k];
    assert Mask(lower, keys, Map(full)).entries[k] != full[k];
  }
}
