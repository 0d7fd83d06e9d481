/** JSON values as the server receives and stores them. */
module JsonValue {

  datatype Json =
    | JStr(s: string)
    | JNum(n: real)
    | JBool(b: bool)
    | JNull
    | JArr(items: seq<Json>)
    | JObj(fields: map<string, Json>)

  /** JavaScript truthiness of a parsed JSON value (NaN cannot occur in
      JSON). An absent key reads as `undefined`, which is falsy too. */
  predicate Truthy(v: Json)
  {
    match v
    case JStr(s) => s != ""
    case JNum(n) => n != 0.0
    case JBool(b) => b
    case JNull => false
    case JArr(_) => true
    case JObj(_) => true
  }

  predicate TruthyField(obj: map<string, Json>, key: string)
  {
    key in obj && Truthy(obj[key])
  }
}

/** The profile endpoints' id handling (backend/server.js): the id a new
    profile gets from its name, and the id an update is stored under. */
module Profiles {
  import opened JsonValue
  import Text

  predicate IsSlugChar(c: char)
  {
    'a' <= c <= 'z' || '0' <= c <= '9'
  }

  /** One character of `name.toLowerCase().replace(/[^a-z0-9]/g, '-')`. */
  function SlugChar(c: char): char
  {
    var l := Text.LowerChar(c);
    if IsSlugChar(l) then l else '-'
  }

  /** The id derived from a profile name: lower-cased, with every character
      other than a lower-case ASCII letter or a digit replaced by `-`. */
  function Slug(name: string): (r: string)
    ensures |r| == |name|
    ensures forall i :: 0 <= i < |name| ==> r[i] == SlugChar(name[i])
  {
    if name == [] then [] else [SlugChar(name[0])] + Slug(name[1..])
  }

  /** A slug holds only lower-case letters, digits and dashes; letters and
      digits of the name stay in place (upper-case letters lower-cased) and
      every other character becomes a dash. */
  lemma SlugShape(name: string)
    ensures forall i :: 0 <= i < |name| ==>
      IsSlugChar(Slug(name)[i]) || Slug(name)[i] == '-'
    ensures forall i :: 0 <= i < |name| ==>
      (Slug(name)[i] == '-' <==> !IsSlugChar(Text.LowerChar(name[i])))
    ensures forall i :: 0 <= i < |name| && IsSlugChar(Text.LowerChar(name[i])) ==>
      Slug(name)[i] == Text.LowerChar(name[i])
  {
  }

  /** Deriving a slug from a slug changes nothing. */
  lemma SlugIdempotent(name: string)
    ensures Slug(Slug(name)) == Slug(name)
  {
    var s := Slug(name);
    assert forall i :: 0 <= i < |s| ==> SlugChar(s[i]) == s[i];
  }

  /** The outcome of a profile request: the profile stored and returned,
      or a server error (the handler's catch block, status 500). */
  datatype Outcome = Saved(profile: map<string, Json>) | ServerError

  /** `POST /api/profiles`: a body without a truthy `id` gets the slug of
      its `name`; a body that then has no string `name` makes the handler
      throw. */
  function CreateProfile(body: map<string, Json>): (r: Outcome)
    ensures TruthyField(body, "id") ==> r == Saved(body)
    ensures !TruthyField(body, "id") && "name" in body && body["name"].JStr? ==>
      r.Saved? && r.profile.Keys == body.Keys + {"id"} &&
      r.profile["id"] == JStr(Slug(body["name"].s)) &&
      forall k :: k in body && k != "id" ==> r.profile[k] == body[k]
    ensures r.ServerError? <==>
      !TruthyField(body, "id") && !("name" in body && body["name"].JStr?)
  {
    if TruthyField(body, "id") then Saved(body)
    else if "name" in body && body["name"].JStr? then Saved(body["id" := JStr(Slug(body["name"].s))])
    else ServerError
  }

  /** Posting a created profile again stores it unchanged: its id is
      truthy, or it is the (empty) slug of its name, which is derived
      again. */
  lemma CreateProfileStable(body: map<string, Json>)
    requires CreateProfile(body).Saved?
    ensures var p := CreateProfile(body).profile;
      CreateProfile(p) == Saved(p)
  {
  }

  /** `PUT /api/profiles/:id`: the body with its `id` forced to the path
      parameter. */
  function UpdateProfile(id: string, body: map<string, Json>): (r: map<string, Json>)
    ensures r.Keys == body.Keys + {"id"}
    ensures r["id"] == JStr(id)
    ensures forall k :: k in body && k != "id" ==> r[k] == body[k]
  {
    body["id" := JStr(id)]
  }

  /** Whatever id the body claims, the stored profile carries the path's;
      repeating the update changes nothing. */
  lemma UpdateProfileIgnoresBodyId(id: string, body: map<string, Json>, claimed: Json)
    ensures UpdateProfile(id, body["id" := claimed]) == UpdateProfile(id, body)
    ensures UpdateProfile(id, UpdateProfile(id, body)) == UpdateProfile(id, body)
  {
  }
}

/** The configuration file: its defaults, how it is loaded, and how
    `PUT /api/config` merges a body into it (backend/server.js). */
module Config {
  import opened JsonValue
  import Text

  /** The defaults written when the file is missing or unreadable. */
  function DefaultConfig(): map<string, Json>
  {
    map[
      "default_profile" := JStr("Space & Cosmos"),
      "grid_rows" := JNum(3.0),
      "grid_columns" := JNum(3.0),
      "rotation_interval" := JNum(10.0),
      "background_color" := JStr("#1a1a1a"),
      "image_fit_mode" := JStr("fit"),
      "reddit_posts_per_sub" := JNum(50.0),
      "cache_directory" := JStr("./cache"),
      "enable_videos" := JBool(false),
      "max_concurrent_downloads" := JNum(10.0),
      "loading_animation_style" := JStr("glassmorphic")]
  }

  /** The state of `config.json` when it is read: absent, present but not
      valid JSON (or unreadable), or parsed to a value. */
  datatype ConfigFile = Missing | Unparsable | Parsed(value: Json)

  /** What `loadConfig` returns, and whether it rewrites the file with the
      defaults first. */
  datatype Loaded = Loaded(config: Json, rewritesDefaults: bool)

  function LoadConfig(file: ConfigFile): (r: Loaded)
    ensures r.rewritesDefaults <==> !file.Parsed?
    ensures file.Parsed? ==> r.config == file.value
    ensures !file.Parsed? ==> r.config == JObj(DefaultConfig())
  {
    if file.Parsed? then Loaded(file.value, false) else Loaded(JObj(DefaultConfig()), true)
  }

  /** Loading settles after one call: once the file holds what a load
      returned (the parsed value, or the defaults it wrote), the next load
      returns the same configuration and rewrites nothing. */
  lemma LoadConfigSettles(file: ConfigFile)
    ensures var c := LoadConfig(file).config;
      LoadConfig(Parsed(c)) == Loaded(c, false)
    ensures LoadConfig(file).rewritesDefaults ==>
      LoadConfig(Parsed(LoadConfig(file).config)).config == JObj(DefaultConfig())
  {
  }

  /** The own enumerable properties `{...v}` copies from a parsed value:
      an object's fields, an array's elements or a string's characters
      under their decimal indices, and nothing for the other values. */
  function Spread(v: Json): (r: map<string, Json>)
    ensures v.JObj? ==> r == v.fields
    ensures v.JArr? ==> forall i :: 0 <= i < |v.items| ==>
      Text.NatText(i) in r && r[Text.NatText(i)] == v.items[i]
    ensures v.JArr? ==> forall k :: k in r ==> exists i :: 0 <= i < |v.items| && k == Text.NatText(i)
    ensures v.JStr? ==> forall i :: 0 <= i < |v.s| ==>
      Text.NatText(i) in r && r[Text.NatText(i)] == JStr([v.s[i]])
    ensures v.JStr? ==> forall k :: k in r ==> exists i :: 0 <= i < |v.s| && k == Text.NatText(i)
    ensures v.JNum? || v.JBool? || v.JNull? ==> r == map[]
  {
    match v
    case JObj(m) => m
    case JArr(xs) => Indexed(xs)
    case JStr(s) => Indexed(Chars(s))
    case _ => map[]
  }

  function Chars(s: string): (r: seq<Json>)
    ensures |r| == |s|
    ensures forall i :: 0 <= i < |s| ==> r[i] == JStr([s[i]])
  {
    if s == [] then [] else Chars(s[..|s| - 1]) + [JStr([s[|s| - 1]])]
  }

  /** The elements of a list under their decimal indices. */
  function Indexed(xs: seq<Json>): (r: map<string, Json>)
    ensures forall i :: 0 <= i < |xs| ==> Text.NatText(i) in r && r[Text.NatText(i)] == xs[i]
    ensures forall k :: k in r ==> exists i :: 0 <= i < |xs| && k == Text.NatText(i)
  {
    if xs == [] then map[]
    else
      var n := |xs| - 1;
      assert forall i :: 0 <= i < n ==> Text.NatText(i) != Text.NatText(n) by {
        forall i | 0 <= i < n
          ensures Text.NatText(i) != Text.NatText(n)
        {
          Text.NatTextRoundTrip(i);
          Text.NatTextRoundTrip(n);
        }
      }
      Indexed(xs[..n])[Text.NatText(n) := xs[n]]
  }

  /** `{ ...stored, ...body }`: every key of either, the body's value
      winning. */
  function MergeConfig(stored: map<string, Json>, body: map<string, Json>): (r: map<string, Json>)
    ensures r.Keys == stored.Keys + body.Keys
    ensures forall k :: k in body ==> r[k] == body[k]
    ensures forall k :: k in stored && k !in body ==> r[k] == stored[k]
  {
    stored + body
  }

  /** `PUT /api/config`: the body merged over the loaded configuration; the
      result is what the file then holds and what the response carries. */
  function PutConfig(file: ConfigFile, body: map<string, Json>): (r: map<string, Json>)
    ensures forall k :: k in body ==> k in r && r[k] == body[k]
    ensures file.Parsed? && file.value.JObj? ==>
      r.Keys == file.value.fields.Keys + body.Keys &&
      forall k :: k in file.value.fields && k !in body ==> r[k] == file.value.fields[k]
    ensures !file.Parsed? ==> r.Keys == DefaultConfig().Keys + body.Keys
    ensures file.Parsed? && (file.value.JNum? || file.value.JBool? || file.value.JNull?) ==> r == body
  {
    MergeConfig(Spread(LoadConfig(file).config), body)
  }

  /** Applying the same body twice gives the same file as applying it once. */
  lemma PutConfigIdempotent(file: ConfigFile, body: map<string, Json>)
    ensures PutConfig(Parsed(JObj(PutConfig(file, body))), body) == PutConfig(file, body)
  {
  }

  /** Merging a configuration with itself changes nothing, and an empty
      body leaves it as it is. */
  lemma MergeNeutral(stored: map<string, Json>)
    ensures MergeConfig(stored, stored) == stored
    ensures MergeConfig(stored, map[]) == stored
  {
  }

  /** A PUT on a missing or unreadable file merges the body over the
      defaults: every default the body does not mention survives. */
  lemma PutConfigOverDefaults(file: ConfigFile, body: map<string, Json>)
    requires !file.Parsed?
    ensures var r := PutConfig(file, body);
      r.Keys == DefaultConfig().Keys + body.Keys &&
      forall k :: k in DefaultConfig() && k !in body ==> r[k] == DefaultConfig()[k]
  {
  }
}
