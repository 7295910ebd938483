/** Table-driven redaction of events and the event id computed from what redaction keeps. */
module Redaction {
  import opened Collections

  /** Values other than strings and objects are told apart but not looked into. */
  datatype Json = Str(text: string) | Obj(fields: map<string, Json>) | Other(raw: string)

  type Dict = map<string, Json>

  datatype Rule = Rule(keep: seq<string>, content: map<string, seq<string>>)

  datatype RedactError = TypeIsNotAString | ContentIsNotAnObject

  const ALL_KEYS := "_ALL_KEYS"

  // ----- the tables

  const TOP_LEVEL_KEYS: seq<string> :=
    ["event_id", "type", "room_id", "sender", "state_key", "content", "hashes", "signatures", "depth",
     "prev_events", "prev_state", "auth_events", "origin", "origin_server_ts", "membership"]

  const V11_TOP_LEVEL_KEYS: seq<string> :=
    ["event_id", "type", "room_id", "sender", "state_key", "content", "hashes", "signatures", "depth",
     "prev_events", "auth_events", "origin_server_ts"]

  const POWER_LEVEL_KEYS: seq<string> :=
    ["ban", "events", "events_default", "kick", "redact", "state_default", "users", "users_default"]

  const V6_RULE := Rule(TOP_LEVEL_KEYS, map[
    "m.room.member" := ["membership"],
    "m.room.create" := ["creator"],
    "m.room.join_rules" := ["join_rule"],
    "m.room.history_visibility" := ["history_visibility"],
    "m.room.power_levels" := POWER_LEVEL_KEYS])

  /** Versions 3 to 5 also keep the aliases. */
  const V3_RULE := V6_RULE.(content := V6_RULE.content["m.room.aliases" := ["aliases"]])

  const V8_RULE := V6_RULE.(content := V6_RULE.content["m.room.join_rules" := ["allow", "join_rule"]])

  const V9_RULE := V8_RULE.(content :=
    V8_RULE.content["m.room.member" := ["join_authorised_via_users_server", "membership"]])

  const V11_RULE := Rule(V11_TOP_LEVEL_KEYS,
    V9_RULE.content["m.room.create" := [ALL_KEYS]]
                   ["m.room.redaction" := ["redacts"]]
                   ["m.room.power_levels" := ["ban", "events", "events_default", "invite", "kick", "redact",
                                              "state_default", "users", "users_default"]])

  /** Any version not listed, "1" and "2" included, gets the newest table. */
  function RuleFor(roomVersion: string): Rule {
    if roomVersion in ["3", "4", "5"] then V3_RULE
    else if roomVersion in ["6", "7"] then V6_RULE
    else if roomVersion == "8" then V8_RULE
    else if roomVersion in ["9", "10"] then V9_RULE
    else V11_RULE
  }

  // ----- redaction

  predicate Keeps(rule: Rule, key: string) {
    key in rule.keep
  }

  predicate KeepsContent(rule: Rule, eventType: string, key: string) {
    && eventType in rule.content
    && (key in rule.content[eventType] || ALL_KEYS in rule.content[eventType])
  }

  function RedactContent(rule: Rule, eventType: string, fields: Dict): Dict {
    map key | key in fields && KeepsContent(rule, eventType, key) :: fields[key]
  }

  predicate IsString(data: Dict, key: string) {
    key in data && data[key].Str?
  }

  function ErrorOf(rule: Rule, data: Dict): Option<RedactError> {
    if "content" !in data || !Keeps(rule, "content") then None
    else if !IsString(data, "type") then Some(TypeIsNotAString)
    else if !data["content"].Obj? then Some(ContentIsNotAnObject)
    else None
  }

  function Redacted(rule: Rule, data: Dict): Dict
    requires ErrorOf(rule, data).None?
  {
    map key | key in data && Keeps(rule, key) ::
      if key == "content" then Obj(RedactContent(rule, data["type"].text, data[key].fields)) else data[key]
  }

  function Redact(rule: Rule, data: Dict): Result<Dict, RedactError> {
    var e := ErrorOf(rule, data);
    if e.Some? then Err(e.value) else Ok(Redacted(rule, data))
  }

  function Then(first: Result<Dict, RedactError>, rule: Rule): Result<Dict, RedactError> {
    if first.Err? then first else Redact(rule, first.value)
  }

  /** The loop over the event's items, as the source runs it. */
  method RedactWith(data: Dict, rule: Rule) returns (r: Result<Dict, RedactError>)
    ensures r == Redact(rule, data)
  {
    var result: Dict := map[];
    var todo := data.Keys;
    while todo != {}
      invariant todo <= data.Keys
      invariant result.Keys == set key | key in data.Keys - todo && Keeps(rule, key)
      invariant "content" !in todo ==> ErrorOf(rule, data).None?
      invariant forall key :: key in result && key != "content" ==> result[key] == data[key]
      invariant "content" in result ==>
                  "content" in data && IsString(data, "type") && data["content"].Obj? &&
                  result["content"] == Obj(RedactContent(rule, data["type"].text, data["content"].fields))
    {
      var key :| key in todo;
      todo := todo - {key};
      if Keeps(rule, key) {
        if key != "content" {
          result := result[key := data[key]];
        } else {
          if !("type" in data && data["type"].Str?) {
            return Err(TypeIsNotAString);
          }
          if !data[key].Obj? {
            return Err(ContentIsNotAnObject);
          }
          var content := KeepFields(rule, data["type"].text, data[key].fields);
          result := result[key := Obj(content)];
        }
      }
    }
    assert ErrorOf(rule, data).None?;
    assert result == Redacted(rule, data);
    return Ok(result);
  }

  method KeepFields(rule: Rule, eventType: string, fields: Dict) returns (content: Dict)
    ensures content == RedactContent(rule, eventType, fields)
  {
    content := map[];
    var contentListToKeep := if eventType in rule.content then rule.content[eventType] else [];
    var todo := fields.Keys;
    while todo != {}
      invariant todo <= fields.Keys
      invariant content.Keys == set key | key in fields.Keys - todo && KeepsContent(rule, eventType, key)
      invariant forall key :: key in content ==> content[key] == fields[key]
    {
      var key :| key in todo;
      todo := todo - {key};
      if key in contentListToKeep || ALL_KEYS in contentListToKeep {
        content := content[key := fields[key]];
      }
    }
  }

  // ----- redacting twice

  function Common(a: seq<string>, b: seq<string>): seq<string> {
    if a == [] then []
    else (if a[0] in b then [a[0]] else []) + Common(a[1..], b)
  }

  lemma {:induction false} CommonIsIntersection(a: seq<string>, b: seq<string>, key: string)
    ensures key in Common(a, b) <==> key in a && key in b
  {
    if a != [] {
      CommonIsIntersection(a[1..], b, key);
      assert key in a <==> key == a[0] || key in a[1..];
    }
  }

  /** A content list with the magic constant is the top of the order. */
  function MeetLists(a: seq<string>, b: seq<string>): seq<string> {
    if ALL_KEYS in a then b else if ALL_KEYS in b then a else Common(a, b)
  }

  function Meet(a: Rule, b: Rule): Rule {
    Rule(Common(a.keep, b.keep),
         map t | t in a.content && t in b.content :: MeetLists(a.content[t], b.content[t]))
  }

  lemma MeetKeepsBoth(a: Rule, b: Rule)
    ensures forall key :: Keeps(Meet(a, b), key) <==> Keeps(a, key) && Keeps(b, key)
    ensures forall t, key :: KeepsContent(Meet(a, b), t, key) <==> KeepsContent(a, t, key) && KeepsContent(b, t, key)
  {
    forall key
      ensures Keeps(Meet(a, b), key) <==> Keeps(a, key) && Keeps(b, key)
    {
      CommonIsIntersection(a.keep, b.keep, key);
    }
    forall t, key
      ensures KeepsContent(Meet(a, b), t, key) <==> KeepsContent(a, t, key) && KeepsContent(b, t, key)
    {
      if t in a.content && t in b.content {
        CommonIsIntersection(a.content[t], b.content[t], key);
        CommonIsIntersection(a.content[t], b.content[t], ALL_KEYS);
      }
    }
  }

  /** Every table keeps the event type and the content object. */
  predicate KeepsFrame(rule: Rule) {
    Keeps(rule, "type") && Keeps(rule, "content")
  }

  /** Redacting with one table and then with another is redacting with their intersection. */
  lemma RedactTwice(a: Rule, b: Rule, data: Dict)
    requires KeepsFrame(a) && KeepsFrame(b)
    ensures Then(Redact(a, data), b) == Redact(Meet(a, b), data)
  {
    MeetKeepsBoth(a, b);
    if ErrorOf(a, data).None? {
      var once := Redacted(a, data);
      assert IsString(data, "type") ==> IsString(once, "type") && once["type"] == data["type"];
      if "content" in data {
        var t, fields := data["type"].text, data["content"].fields;
        assert RedactContent(b, t, RedactContent(a, t, fields)) == RedactContent(Meet(a, b), t, fields);
      }
      assert Redacted(b, once) == Redacted(Meet(a, b), data);
    }
  }

  /** `a` keeps nothing that `b` does not keep. */
  ghost predicate Stricter(a: Rule, b: Rule) {
    && (forall key :: Keeps(a, key) ==> Keeps(b, key))
    && (forall t, key :: KeepsContent(a, t, key) ==> KeepsContent(b, t, key))
  }

  lemma SameKept(a: Rule, b: Rule, data: Dict)
    requires Stricter(a, b) && Stricter(b, a)
    ensures Redact(a, data) == Redact(b, data)
  {
    if ErrorOf(a, data).None? {
      if "content" in data && Keeps(a, "content") {
        var t, fields := data["type"].text, data["content"].fields;
        assert RedactContent(a, t, fields) == RedactContent(b, t, fields);
      }
      assert Redacted(a, data) == Redacted(b, data);
    }
  }

  /** Redaction is idempotent, the order of two redactions does not matter, and a stricter table
      absorbs a laxer one on either side. */
  lemma RedactionLaws(a: Rule, b: Rule, data: Dict)
    requires KeepsFrame(a) && KeepsFrame(b)
    ensures Then(Redact(a, data), a) == Redact(a, data)
    ensures Then(Redact(a, data), b) == Then(Redact(b, data), a)
    ensures Stricter(a, b) ==> Then(Redact(a, data), b) == Redact(a, data) == Then(Redact(b, data), a)
  {
    RedactTwice(a, a, data);
    RedactTwice(a, b, data);
    RedactTwice(b, a, data);
    MeetKeepsBoth(a, a);
    MeetKeepsBoth(a, b);
    MeetKeepsBoth(b, a);
    SameKept(Meet(a, a), a, data);
    SameKept(Meet(a, b), Meet(b, a), data);
    if Stricter(a, b) {
      SameKept(Meet(a, b), a, data);
    }
  }

  lemma FramesAreKept(roomVersion: string)
    ensures KeepsFrame(RuleFor(roomVersion))
  {
    assert TOP_LEVEL_KEYS[1] == "type" && TOP_LEVEL_KEYS[5] == "content";
    assert V11_TOP_LEVEL_KEYS[1] == "type" && V11_TOP_LEVEL_KEYS[5] == "content";
  }

  /** The tables of versions 6, 8 and 9 form a chain, and version 6 is also below version 3. */
  lemma TablesChain()
    ensures Stricter(V6_RULE, V8_RULE) && Stricter(V8_RULE, V9_RULE) && Stricter(V6_RULE, V3_RULE)
    ensures !Stricter(V8_RULE, V6_RULE) && !Stricter(V9_RULE, V8_RULE)
  {
    assert V6_RULE.content["m.room.join_rules"] == ["join_rule"];
    assert V8_RULE.content["m.room.member"] == ["membership"];
    assert "m.room.aliases" !in V6_RULE.content;
    assert V8_RULE.content["m.room.join_rules"][0] == "allow" && V8_RULE.content["m.room.join_rules"][1] == "join_rule";
    assert V9_RULE.content["m.room.member"][1] == "membership";
    var viaServer := "join_authorised_via_users_server";
    assert V9_RULE.content["m.room.member"][0] == viaServer;
    assert KeepsContent(V8_RULE, "m.room.join_rules", "allow") && !KeepsContent(V6_RULE, "m.room.join_rules", "allow");
    assert KeepsContent(V9_RULE, "m.room.member", viaServer) && !KeepsContent(V8_RULE, "m.room.member", viaServer);
  }

  /** The newest table drops a top-level key the chain keeps, and keeps a content key the chain drops. */
  lemma NewestTableIsIncomparable(rule: Rule)
    requires rule in [V6_RULE, V8_RULE, V9_RULE]
    ensures !Stricter(rule, V11_RULE) && !Stricter(V11_RULE, rule)
  {
    assert TOP_LEVEL_KEYS[12] == "origin";
    assert Keeps(rule, "origin") && !Keeps(V11_RULE, "origin");
    assert "m.room.redaction" !in rule.content;
    assert V11_RULE.content["m.room.redaction"][0] == "redacts";
    assert KeepsContent(V11_RULE, "m.room.redaction", "redacts") && !KeepsContent(rule, "m.room.redaction", "redacts");
  }

  lemma StricterIsTransitive(a: Rule, b: Rule, c: Rule)
    requires Stricter(a, b) && Stricter(b, c)
    ensures Stricter(a, c)
  {
  }

  lemma ChainOfVersions(roomVersion: string)
    ensures roomVersion in ["6", "7"] ==> RuleFor(roomVersion) == V6_RULE
    ensures roomVersion in ["8", "9", "10"] ==> RuleFor(roomVersion) in [V8_RULE, V9_RULE]
  {
  }

  lemma OlderIsStricter(older: string, newer: string)
    requires older in ["6", "7"] && newer in ["8", "9", "10"]
    ensures Stricter(RuleFor(older), RuleFor(newer))
  {
    TablesChain();
    ChainOfVersions(older);
    ChainOfVersions(newer);
    StricterIsTransitive(V6_RULE, V8_RULE, V9_RULE);
  }

  /** An event redacted for version 6 or 7 is the same whether or not it was redacted for 8, 9 or 10
      before, or is again afterwards. */
  lemma OlderVersionAbsorbs(older: string, newer: string, data: Dict)
    requires older in ["6", "7"] && newer in ["8", "9", "10"]
    ensures Then(Redact(RuleFor(newer), data), RuleFor(older)) == Redact(RuleFor(older), data)
    ensures Then(Redact(RuleFor(older), data), RuleFor(newer)) == Redact(RuleFor(older), data)
  {
    FramesAreKept(older);
    FramesAreKept(newer);
    OlderIsStricter(older, newer);
    RedactionLaws(RuleFor(older), RuleFor(newer), data);
  }

  // ----- what each room version keeps

  /** The room version a table is for; whatever is not 3 to 10 counts as 11. */
  function Number(roomVersion: string): int {
    if roomVersion == "3" then 3 else if roomVersion == "4" then 4 else if roomVersion == "5" then 5
    else if roomVersion == "6" then 6 else if roomVersion == "7" then 7 else if roomVersion == "8" then 8
    else if roomVersion == "9" then 9 else if roomVersion == "10" then 10 else 11
  }

  /** The top-level keys a version keeps. */
  predicate KeptOnTop(n: int, key: string) {
    || key in {"event_id", "type", "room_id", "sender", "state_key", "content", "hashes", "signatures", "depth",
               "prev_events", "auth_events", "origin_server_ts"}
    || (n <= 10 && key in {"origin", "membership", "prev_state"})
  }

  /** The content keys a version keeps for an event type. */
  predicate KeptInContent(n: int, eventType: string, key: string) {
    match eventType
    case "m.room.member" => key == "membership" || (n >= 9 && key == "join_authorised_via_users_server")
    case "m.room.create" => key == "creator" || n >= 11
    case "m.room.join_rules" => key == "join_rule" || (n >= 8 && key == "allow")
    case "m.room.history_visibility" => key == "history_visibility"
    case "m.room.aliases" => n <= 5 && key == "aliases"
    case "m.room.redaction" => n >= 11 && key == "redacts"
    case "m.room.power_levels" =>
      || key in {"ban", "events", "events_default", "kick", "redact", "state_default", "users", "users_default"}
      || (n >= 11 && key == "invite")
    case _ => false
  }

  lemma OldTopKeys(key: string)
    ensures key in TOP_LEVEL_KEYS <==> KeptOnTop(10, key)
  {
    assert TOP_LEVEL_KEYS[0] == "event_id" && TOP_LEVEL_KEYS[1] == "type" && TOP_LEVEL_KEYS[2] == "room_id";
    assert TOP_LEVEL_KEYS[3] == "sender" && TOP_LEVEL_KEYS[4] == "state_key" && TOP_LEVEL_KEYS[5] == "content";
    assert TOP_LEVEL_KEYS[6] == "hashes" && TOP_LEVEL_KEYS[7] == "signatures" && TOP_LEVEL_KEYS[8] == "depth";
    assert TOP_LEVEL_KEYS[9] == "prev_events" && TOP_LEVEL_KEYS[10] == "prev_state" && TOP_LEVEL_KEYS[11] == "auth_events";
    assert TOP_LEVEL_KEYS[12] == "origin" && TOP_LEVEL_KEYS[13] == "origin_server_ts" && TOP_LEVEL_KEYS[14] == "membership";
  }

  lemma NewTopKeys(key: string)
    ensures key in V11_TOP_LEVEL_KEYS <==> KeptOnTop(11, key)
  {
    var keys := V11_TOP_LEVEL_KEYS;
    assert keys[0] == "event_id" && keys[1] == "type" && keys[2] == "room_id" && keys[3] == "sender";
    assert keys[4] == "state_key" && keys[5] == "content" && keys[6] == "hashes" && keys[7] == "signatures";
    assert keys[8] == "depth" && keys[9] == "prev_events" && keys[10] == "auth_events" && keys[11] == "origin_server_ts";
  }

  lemma KeepsOnTop(roomVersion: string, key: string)
    ensures Keeps(RuleFor(roomVersion), key) <==> KeptOnTop(Number(roomVersion), key)
  {
    OldTopKeys(key);
    NewTopKeys(key);
  }

  /** The level keys kept by every version, with those of the newest. */
  lemma LevelKeys(key: string)
    ensures key in POWER_LEVEL_KEYS <==> KeptInContent(10, "m.room.power_levels", key)
    ensures key in V11_RULE.content["m.room.power_levels"] <==> KeptInContent(11, "m.room.power_levels", key)
  {
    var keys := POWER_LEVEL_KEYS;
    assert keys[0] == "ban" && keys[1] == "events" && keys[2] == "events_default" && keys[3] == "kick";
    assert keys[4] == "redact" && keys[5] == "state_default" && keys[6] == "users" && keys[7] == "users_default";
    NewLevelKeys(key);
  }

  lemma NewLevelKeys(key: string)
    ensures key in V11_RULE.content["m.room.power_levels"] <==> KeptInContent(11, "m.room.power_levels", key)
  {
    var keys := V11_RULE.content["m.room.power_levels"];
    assert keys[0] == "ban" && keys[1] == "events" && keys[2] == "events_default" && keys[3] == "invite";
    assert keys[4] == "kick" && keys[5] == "redact" && keys[6] == "state_default" && keys[7] == "users";
    assert keys[8] == "users_default";
  }

  /** What the five tables keep of a type's content, key by key. */
  lemma TableContents(eventType: string, key: string)
    ensures KeepsContent(V3_RULE, eventType, key) <==> KeptInContent(5, eventType, key)
    ensures KeepsContent(V6_RULE, eventType, key) <==> KeptInContent(7, eventType, key)
    ensures KeepsContent(V8_RULE, eventType, key) <==> KeptInContent(8, eventType, key)
  {
    LevelKeys(key);
    LevelKeys(ALL_KEYS);
  }

  lemma NewTableContents(eventType: string, key: string)
    ensures KeepsContent(V9_RULE, eventType, key) <==> KeptInContent(10, eventType, key)
    ensures KeepsContent(V11_RULE, eventType, key) <==> KeptInContent(11, eventType, key)
  {
    LevelKeys(key);
    LevelKeys(ALL_KEYS);
    assert V11_RULE.content["m.room.create"][0] == ALL_KEYS;
  }

  lemma KeepsInContent(roomVersion: string, eventType: string, key: string)
    ensures KeepsContent(RuleFor(roomVersion), eventType, key) <==> KeptInContent(Number(roomVersion), eventType, key)
  {
    TableContents(eventType, key);
    NewTableContents(eventType, key);
  }

  /** `r` is the event with exactly the kept keys and, in its content, exactly the kept content keys; what
      is kept is not changed.  Keys in `but` are dropped in any case. */
  ghost predicate IsKept(n: int, data: Dict, but: set<string>, r: Dict) {
    && (forall key :: key in r <==> key in data && KeptOnTop(n, key) && key !in but)
    && (forall key :: key in r && key != "content" ==> r[key] == data[key])
    && ("content" in r ==>
          && IsString(data, "type") && data["content"].Obj? && r["content"].Obj?
          && (forall key :: key in r["content"].fields <==>
                key in data["content"].fields && KeptInContent(n, data["type"].text, key))
          && (forall key :: key in r["content"].fields ==> r["content"].fields[key] == data["content"].fields[key]))
  }

  /** Redaction at a room version keeps exactly what the version says, unchanged; it fails exactly on content
      that is no object or comes with a type that is no string. */
  lemma RedactedByVersion(roomVersion: string, data: Dict)
    ensures var r := Redact(RuleFor(roomVersion), data);
            && (r.Err? <==> "content" in data && !(IsString(data, "type") && data["content"].Obj?))
            && (r.Ok? ==> IsKept(Number(roomVersion), data, {}, r.value))
  {
    forall key
      ensures Keeps(RuleFor(roomVersion), key) <==> KeptOnTop(Number(roomVersion), key)
    {
      KeepsOnTop(roomVersion, key);
    }
    forall t, key
      ensures KeepsContent(RuleFor(roomVersion), t, key) <==> KeptInContent(Number(roomVersion), t, key)
    {
      KeepsInContent(roomVersion, t, key);
    }
    AsTheTableSays(roomVersion, RuleFor(roomVersion), data);
  }

  lemma AsTheTableSays(roomVersion: string, rule: Rule, data: Dict)
    requires forall key :: Keeps(rule, key) <==> KeptOnTop(Number(roomVersion), key)
    requires forall t, key :: KeepsContent(rule, t, key) <==> KeptInContent(Number(roomVersion), t, key)
    ensures var r := Redact(rule, data);
            && (r.Err? <==> "content" in data && !(IsString(data, "type") && data["content"].Obj?))
            && (r.Ok? ==> IsKept(Number(roomVersion), data, {}, r.value))
  {
  }

  // ----- event ids

  /** What is hashed: the redacted event without signatures and unsigned data.  `hash` stands for the
      canonical encoding, its SHA-256 and the URL-safe base64 of that. */
  function EventId(roomVersion: string, data: Dict, hash: Dict -> string): Result<string, RedactError> {
    var redacted := Redact(RuleFor(roomVersion), data);
    if redacted.Err? then Err(redacted.error)
    else Ok("$" + hash(redacted.value - {"signatures", "unsigned"}))
  }

  /** An id is a dollar sign and the hash of exactly what the version keeps, without the signatures and the
      unsigned data. */
  ghost predicate IsIdOf(roomVersion: string, data: Dict, hash: Dict -> string, id: string) {
    exists e :: id == "$" + hash(e) && IsKept(Number(roomVersion), data, {"signatures", "unsigned"}, e)
  }

  lemma IdByVersion(roomVersion: string, data: Dict, hash: Dict -> string)
    ensures var id := EventId(roomVersion, data, hash);
            && (id.Err? <==> "content" in data && !(IsString(data, "type") && data["content"].Obj?))
            && (id.Ok? ==> IsIdOf(roomVersion, data, hash, id.value))
  {
    RedactedByVersion(roomVersion, data);
    var redacted := Redact(RuleFor(roomVersion), data);
    if redacted.Ok? {
      var e := redacted.value - {"signatures", "unsigned"};
      assert IsKept(Number(roomVersion), data, {"signatures", "unsigned"}, e);
    }
  }

  /** The two events agree wherever the rule looks, signatures and unsigned data aside. */
  ghost predicate SameEssence(rule: Rule, a: Dict, b: Dict) {
    && (forall key :: Keeps(rule, key) && key !in {"signatures", "unsigned"} ==> (key in a <==> key in b))
    && (forall key :: Keeps(rule, key) && key !in {"signatures", "unsigned", "content"} && key in a && key in b ==>
          a[key] == b[key])
    && ("content" in a && "content" in b && IsString(a, "type") && a["content"].Obj? && b["content"].Obj? ==>
          forall key :: KeepsContent(rule, a["type"].text, key) ==>
            && (key in a["content"].fields <==> key in b["content"].fields)
            && (key in a["content"].fields && key in b["content"].fields ==>
                  a["content"].fields[key] == b["content"].fields[key]))
  }

  ghost predicate Injective(hash: Dict -> string) {
    forall a, b :: hash(a) == hash(b) ==> a == b
  }

  lemma EssenceIsHashed(rule: Rule, a: Dict, b: Dict)
    requires KeepsFrame(rule) && ErrorOf(rule, a).None? && ErrorOf(rule, b).None?
    ensures SameEssence(rule, a, b) <==>
            Redacted(rule, a) - {"signatures", "unsigned"} == Redacted(rule, b) - {"signatures", "unsigned"}
  {
    var ra, rb := Redacted(rule, a) - {"signatures", "unsigned"}, Redacted(rule, b) - {"signatures", "unsigned"};
    if SameEssence(rule, a, b) {
      if "content" in a {
        var t := a["type"].text;
        assert a["type"] == b["type"];
        assert RedactContent(rule, t, a["content"].fields) == RedactContent(rule, t, b["content"].fields);
      }
      assert ra == rb;
    }
    if ra == rb {
      EqualHashInputAgrees(rule, a, b);
    }
  }

  lemma EqualHashInputAgrees(rule: Rule, a: Dict, b: Dict)
    requires KeepsFrame(rule) && ErrorOf(rule, a).None? && ErrorOf(rule, b).None?
    requires Redacted(rule, a) - {"signatures", "unsigned"} == Redacted(rule, b) - {"signatures", "unsigned"}
    ensures SameEssence(rule, a, b)
  {
    var ra, rb := Redacted(rule, a) - {"signatures", "unsigned"}, Redacted(rule, b) - {"signatures", "unsigned"};
    forall key | Keeps(rule, key) && key !in {"signatures", "unsigned"}
      ensures key in a <==> key in b
      ensures key != "content" && key in a && key in b ==> a[key] == b[key]
    {
      assert key in a <==> key in ra;
      assert key in b <==> key in rb;
    }
    if "content" in a && "content" in b {
      var t := a["type"].text;
      assert a["type"] == b["type"];
      var ca, cb := RedactContent(rule, t, a["content"].fields), RedactContent(rule, t, b["content"].fields);
      assert ra["content"] == Obj(ca) && rb["content"] == Obj(cb);
      forall key | KeepsContent(rule, t, key)
        ensures key in a["content"].fields <==> key in b["content"].fields
        ensures key in a["content"].fields && key in b["content"].fields ==>
                  a["content"].fields[key] == b["content"].fields[key]
      {
        assert key in a["content"].fields <==> key in ca;
        assert key in b["content"].fields <==> key in cb;
      }
    }
  }

  /** Two events that can be redacted have the same id if, and for a collision-free hash only if, they
      agree on everything redaction keeps other than signatures and unsigned data. */
  lemma SameIdIff(roomVersion: string, a: Dict, b: Dict, hash: Dict -> string)
    requires ErrorOf(RuleFor(roomVersion), a).None? && ErrorOf(RuleFor(roomVersion), b).None?
    ensures SameEssence(RuleFor(roomVersion), a, b) ==> EventId(roomVersion, a, hash) == EventId(roomVersion, b, hash)
    ensures Injective(hash) && EventId(roomVersion, a, hash) == EventId(roomVersion, b, hash) ==>
              SameEssence(RuleFor(roomVersion), a, b)
  {
    var rule := RuleFor(roomVersion);
    FramesAreKept(roomVersion);
    EssenceIsHashed(rule, a, b);
    var ia, ib := hash(Redacted(rule, a) - {"signatures", "unsigned"}), hash(Redacted(rule, b) - {"signatures", "unsigned"});
    assert ("$" + ia)[1..] == ia && ("$" + ib)[1..] == ib;
  }

  /** Redacting an event first does not change its id, nor whether it has one. */
  lemma RedactionKeepsId(roomVersion: string, data: Dict, hash: Dict -> string)
    ensures var redacted := Redact(RuleFor(roomVersion), data);
            if redacted.Ok? then EventId(roomVersion, redacted.value, hash) == EventId(roomVersion, data, hash)
            else EventId(roomVersion, data, hash) == Err(redacted.error)
  {
    FramesAreKept(roomVersion);
    RedactionLaws(RuleFor(roomVersion), RuleFor(roomVersion), data);
  }

  /** Giving an event other signatures or other unsigned data, or none, does not change its id. */
  lemma SignaturesDoNotCount(roomVersion: string, data: Dict, changed: Dict, hash: Dict -> string)
    requires data - {"signatures", "unsigned"} == changed - {"signatures", "unsigned"}
    ensures EventId(roomVersion, data, hash) == EventId(roomVersion, changed, hash)
  {
    FramesAreKept(roomVersion);
    var rule := RuleFor(roomVersion);
    var rest := data - {"signatures", "unsigned"};
    forall key | key !in {"signatures", "unsigned"}
      ensures key in data <==> key in changed
      ensures key in data ==> data[key] == changed[key]
    {
      assert key in data <==> key in rest;
      assert key in changed <==> key in rest;
    }
    assert "content" !in {"signatures", "unsigned"} && "type" !in {"signatures", "unsigned"};
    assert ErrorOf(rule, data) == ErrorOf(rule, changed);
    if ErrorOf(rule, data).None? {
      SameIdIff(roomVersion, data, changed, hash);
    }
  }

  // ----- on dictionaries that are changed in place

  class JsonObject {
    var entries: Dict

    constructor (entries: Dict)
      ensures this.entries == entries
    {
      this.entries := entries;
    }

    method Pop(key: string)
      modifies this
      ensures entries == old(entries) - {key}
    {
      entries := entries - {key};
    }
  }

  /** The id is computed on a redacted copy: the event passed in stays as it was. */
  method ConstructEventId(roomVersion: string, data: JsonObject, hash: Dict -> string)
    returns (id: Result<string, RedactError>)
    ensures id == EventId(roomVersion, data.entries, hash)
    ensures id.Ok? ==> IsIdOf(roomVersion, data.entries, hash, id.value)
    ensures data.entries == old(data.entries)
  {
    IdByVersion(roomVersion, data.entries, hash);
    var redacted := RedactWith(data.entries, RuleFor(roomVersion));
    if redacted.Err? {
      return Err(redacted.error);
    }
    var copy := new JsonObject(redacted.value);
    copy.Pop("signatures");
    copy.Pop("unsigned");
    assert copy.entries == redacted.value - {"signatures", "unsigned"};
    return Ok("$" + hash(copy.entries));
  }
}
