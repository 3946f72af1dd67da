/** Redacting and validating connector configurations (internal/adminapi/domain.go). */
module ConfigRedaction {
  import opened Common
  import Spaces

  datatype Json =
    | Null
    | Boolean(b: bool)
    | Number(digits: string)
    | Str(s: string)
    | Arr(items: seq<Json>)
    | Obj(fields: map<string, Json>)

  const MARKER := Str("[redacted]")

  // ---- Sensitive keys ----

  const TOKENS: seq<string> :=
    ["token", "password", "secret", "api_key", "apikey", "private_key", "access_key", "client_secret"]

  /** Lower case, as far as it can matter to the tokens: only these runes become ASCII letters. */
  function Lower(c: char): char {
    if 'A' <= c <= 'Z' then (c as int + 32) as char
    else if c == '\U{130}' then 'i'
    else if c == '\U{212A}' then 'k'
    else c
  }

  function Normalized(key: string): string {
    var t := Spaces.TrimSpace(key);
    seq(|t|, i requires 0 <= i < |t| => if t[i] == '-' || t[i] == ' ' then '_' else Lower(t[i]))
  }

  predicate Occurs(s: string, t: string, i: nat) {
    i + |t| <= |s| && s[i..i + |t|] == t
  }

  predicate Contains(s: string, t: string) {
    exists i | 0 <= i <= |s| - |t| :: Occurs(s, t, i)
  }

  predicate SensitiveConfigKey(key: string) {
    exists k | 0 <= k < |TOKENS| :: Contains(Normalized(key), TOKENS[k])
  }

  /** c stands for t whatever its case, and hyphens and blanks stand for underscores. */
  predicate SpelledAs(c: char, t: char) {
    || c == t
    || ('A' <= c <= 'Z' && c as int + 32 == t as int)
    || (t == '_' && (c == '-' || c == ' '))
    || (t == 'i' && c == '\U{130}')
    || (t == 'k' && c == '\U{212A}')
  }

  ghost predicate SpelledAt(s: string, name: string, i: nat) {
    i + |name| <= |s| && forall j | 0 <= j < |name| :: SpelledAs(s[i + j], name[j])
  }

  predicate IsSecretName(name: string) {
    name in {"token", "password", "secret", "api_key", "apikey", "private_key", "access_key"}
  }

  predicate IsTokenChar(c: char) {
    'a' <= c <= 'z' || c == '_'
  }

  lemma SpelledAsNormal(c: char, t: char)
    requires IsTokenChar(t)
    ensures SpelledAs(c, t) <==> (if c == '-' || c == ' ' then '_' else Lower(c)) == t
  {
  }

  lemma TokenLetters(k: nat)
    requires k < |TOKENS|
    ensures forall j | 0 <= j < |TOKENS[k]| :: IsTokenChar(TOKENS[k][j])
    ensures TOKENS[k] != "" && TOKENS[k][0] != '_' && TOKENS[k][|TOKENS[k]| - 1] != '_'
    ensures IsSecretName(TOKENS[k]) || TOKENS[k] == "client_secret"
  {
  }

  lemma SpelledIffOccurs(key: string, k: nat, i: nat)
    requires k < |TOKENS|
    ensures Occurs(Normalized(key), TOKENS[k], i) <==> SpelledAt(Spaces.TrimSpace(key), TOKENS[k], i)
  {
    hide Spaces.TrimSpace, Lower, SpelledAs, TOKENS;
    TokenLetters(k);
    var t, n, name := Spaces.TrimSpace(key), Normalized(key), TOKENS[k];
    if i + |name| <= |t| {
      forall j | 0 <= j < |name| ensures SpelledAs(t[i + j], name[j]) <==> n[i..i + |name|][j] == name[j] {
        SpelledAsNormal(t[i + j], name[j]);
      }
    }
  }

  lemma NoBlankIsLetter(c: char, t: char)
    requires IsTokenChar(t) && t != '_' && SpelledAs(c, t)
    ensures !Spaces.IsSpace(c)
  {
  }

  /** A name has no blank at its ends, so it does not reach into the blanks around the key. */
  lemma SpelledInside(key: string, before: string, t: string, behind: string, k: nat, i: nat)
    requires k < |TOKENS| && Spaces.Around(key, before, t, behind) && SpelledAt(key, TOKENS[k], i)
    ensures i >= |before|
    ensures SpelledAt(t, TOKENS[k], i - |before|)
  {
    hide TOKENS, SpelledAs, Spaces.IsSpace;
    TokenLetters(k);
    var name, b := TOKENS[k], |before|;
    assert SpelledAs(key[i + 0], name[0]) && SpelledAs(key[i + (|name| - 1)], name[|name| - 1]);
    NoBlankIsLetter(key[i], name[0]);
    NoBlankIsLetter(key[i + (|name| - 1)], name[|name| - 1]);
    forall j | 0 <= j < b ensures Spaces.IsSpace(key[j]) { assert key[j] == before[j]; }
    forall j | b + |t| <= j < |key| ensures Spaces.IsSpace(key[j]) { assert key[j] == behind[j - b - |t|]; }
    forall j | 0 <= j < |name| ensures SpelledAs(t[i - b + j], name[j]) { assert key[i + j] == t[i - b + j]; }
  }

  lemma SpelledOutside(key: string, before: string, t: string, behind: string, name: string, i: nat)
    requires Spaces.Around(key, before, t, behind) && SpelledAt(t, name, i)
    ensures SpelledAt(key, name, |before| + i)
  {
    hide SpelledAs, Spaces.Blank;
    forall j | 0 <= j < |name| ensures SpelledAs(key[|before| + i + j], name[j]) {
      assert key[|before| + i + j] == t[i + j];
    }
  }

  lemma SpelledIffTrimmed(key: string, k: nat)
    requires k < |TOKENS|
    ensures (exists i: nat :: SpelledAt(key, TOKENS[k], i))
       <==> (exists i: nat :: SpelledAt(Spaces.TrimSpace(key), TOKENS[k], i))
  {
    hide Spaces.TrimSpace, TOKENS, SpelledAt, Spaces.Blank;
    var t := Spaces.TrimSpace(key);
    var before, behind := Spaces.TrimTakesSpacesOnly(key);
    if i: nat :| SpelledAt(key, TOKENS[k], i) {
      SpelledInside(key, before, t, behind, k, i);
      assert SpelledAt(t, TOKENS[k], i - |before|);
    }
    if i: nat :| SpelledAt(t, TOKENS[k], i) {
      SpelledOutside(key, before, t, behind, TOKENS[k], i);
    }
  }

  /** A key is sensitive exactly if one of the names stands somewhere in it, in any case and with any of the three
      separators. */
  lemma {:induction false} SensitiveIff(key: string)
    ensures SensitiveConfigKey(key) <==> exists name, i: nat :: IsSecretName(name) && SpelledAt(key, name, i)
  {
    hide Spaces.TrimSpace, SpelledAt, Normalized, Occurs;
    if SensitiveConfigKey(key) {
      var k :| 0 <= k < |TOKENS| && Contains(Normalized(key), TOKENS[k]);
      var i: nat :| Occurs(Normalized(key), TOKENS[k], i);
      SpelledIffOccurs(key, k, i);
      SpelledIffTrimmed(key, k);
      var j: nat :| SpelledAt(key, TOKENS[k], j);
      TokenLetters(k);
      if TOKENS[k] == "client_secret" { SecretInside(key, j); }
    }
    if name, i: nat :| IsSecretName(name) && SpelledAt(key, name, i) {
      var k := TokenOf(name);
      SpelledIffTrimmed(key, k);
      var j: nat :| SpelledAt(Spaces.TrimSpace(key), TOKENS[k], j);
      SpelledIffOccurs(key, k, j);
      OccursInside(Normalized(key), TOKENS[k], j);
    }
  }

  lemma OccursInside(s: string, t: string, i: nat)
    requires Occurs(s, t, i)
    ensures Contains(s, t)
  {
  }

  lemma SecretInside(key: string, i: nat)
    requires SpelledAt(key, "client_secret", i)
    ensures SpelledAt(key, "secret", i + 7)
  {
    forall j | 0 <= j < 6 ensures SpelledAs(key[i + 7 + j], "secret"[j]) {
      assert "client_secret"[7 + j] == "secret"[j];
      assert SpelledAs(key[i + (7 + j)], "client_secret"[7 + j]);
    }
  }

  lemma TokenOf(name: string) returns (k: nat)
    requires IsSecretName(name)
    ensures k < |TOKENS| && TOKENS[k] == name
  {
    k := if name == "token" then 0 else if name == "password" then 1 else if name == "secret" then 2
         else if name == "api_key" then 3 else if name == "apikey" then 4 else if name == "private_key" then 5 else 6;
  }

  // ---- Redaction and validation ----

  function Redact(value: Json): Json {
    match value
    case Obj(fields) => Obj(map k | k in fields :: if SensitiveConfigKey(k) then MARKER else Redact(fields[k]))
    case Arr(items) => Arr(seq(|items|, i requires 0 <= i < |items| => Redact(items[i])))
    case _ => value
  }

  /** What is checked of one value inside a configuration. */
  predicate Passes(value: Json)
    decreases value, 1
  {
    match value
    case Obj(fields) => Accepts(value)
    case Arr(items) => forall i | 0 <= i < |items| && items[i].Obj? :: Accepts(items[i])
    case _ => true
  }

  /** No sensitive key in an object, its objects, or the objects directly inside its arrays. */
  predicate Accepts(config: Json)
    requires config.Obj?
    decreases config, 0
  {
    forall k | k in config.fields :: !SensitiveConfigKey(k) && Passes(config.fields[k])
  }

  method RedactConfig(value: Json) returns (result: Json)
    ensures result == Redact(value)
  {
    hide SensitiveConfigKey;
    match value {
      case Obj(fields) =>
        var filled: map<string, Json> := map[];
        var left := fields.Keys;
        while left != {}
          invariant left <= fields.Keys && filled.Keys == fields.Keys - left
          invariant forall k | k in filled ::
            filled[k] == if SensitiveConfigKey(k) then MARKER else Redact(fields[k])
          decreases left
        {
          var key :| key in left;
          left := left - {key};
          if SensitiveConfigKey(key) {
            filled := filled[key := MARKER];
            continue;
          }
          var item := RedactConfig(fields[key]);
          filled := filled[key := item];
        }
        result := Obj(filled);
      case Arr(items) =>
        var filled: seq<Json> := [];
        for index := 0 to |items|
          invariant |filled| == index && forall i | 0 <= i < index :: filled[i] == Redact(items[i])
        {
          var item := RedactConfig(items[index]);
          filled := filled + [item];
        }
        result := Arr(filled);
      case _ =>
        result := value;
    }
  }

  method ValidateConfigObject(config: Json) returns (ok: bool)
    requires config.Obj?
    ensures ok <==> Accepts(config)
  {
    hide SensitiveConfigKey;
    var left := config.fields.Keys;
    while left != {}
      invariant left <= config.fields.Keys
      invariant forall k | k in config.fields && k !in left :: !SensitiveConfigKey(k) && Passes(config.fields[k])
      decreases left
    {
      var key :| key in left;
      left := left - {key};
      if SensitiveConfigKey(key) {
        return false;
      }
      match config.fields[key] {
        case Obj(_) =>
          var fine := ValidateConfigObject(config.fields[key]);
          if !fine {
            return false;
          }
        case Arr(nested) =>
          for i := 0 to |nested|
            invariant forall j | 0 <= j < i && nested[j].Obj? :: Accepts(nested[j])
          {
            if nested[i].Obj? {
              var fine := ValidateConfigObject(nested[i]);
              if !fine {
                assert !Passes(config.fields[key]);
                return false;
              }
            }
          }
        case _ =>
      }
      assert Passes(config.fields[key]);
    }
    ok := true;
  }

  // ---- What redaction leaves ----

  /** Every sensitive key, at any depth, holds the marker. */
  predicate Clean(value: Json) {
    match value
    case Obj(fields) =>
      forall k | k in fields :: if SensitiveConfigKey(k) then fields[k] == MARKER else Clean(fields[k])
    case Arr(items) => forall i | 0 <= i < |items| :: Clean(items[i])
    case _ => true
  }

  /** Whatever the configuration, its redaction holds nothing but the marker under sensitive keys. */
  lemma {:induction false} RedactionIsClean(value: Json)
    ensures Clean(Redact(value))
  {
    hide SensitiveConfigKey;
    match value {
      case Obj(fields) =>
        forall k | k in fields && !SensitiveConfigKey(k) ensures Clean(Redact(fields[k])) {
          RedactionIsClean(fields[k]);
        }
      case Arr(items) =>
        forall i | 0 <= i < |items| ensures Clean(Redact(items[i])) { RedactionIsClean(items[i]); }
      case _ =>
    }
  }

  /** Redaction changes exactly the values that are not clean. */
  lemma {:induction false} UnchangedIffClean(value: Json)
    ensures Redact(value) == value <==> Clean(value)
  {
    hide SensitiveConfigKey;
    match value {
      case Obj(fields) =>
        var r := Redact(value).fields;
        forall k | k in fields
          ensures !SensitiveConfigKey(k) ==> (Redact(fields[k]) == fields[k] <==> Clean(fields[k]))
        {
          UnchangedIffClean(fields[k]);
        }
        if Clean(value) {
          assert r == fields;
        } else {
          var k :| k in fields && !(if SensitiveConfigKey(k) then fields[k] == MARKER else Clean(fields[k]));
          assert r[k] != fields[k];
        }
      case Arr(items) =>
        var r := Redact(value).items;
        forall i | 0 <= i < |items| ensures Redact(items[i]) == items[i] <==> Clean(items[i]) {
          UnchangedIffClean(items[i]);
        }
        if Clean(value) {
          assert r == items;
        } else {
          var i :| 0 <= i < |items| && !Clean(items[i]);
          assert r[i] != items[i];
        }
      case _ =>
    }
  }

  lemma {:induction false} RedactTwice(value: Json)
    ensures Redact(Redact(value)) == Redact(value)
  {
    RedactionIsClean(value);
    UnchangedIffClean(Redact(value));
  }

  // ---- Places in a configuration ----

  datatype Step = Key(key: string) | Index(index: nat)

  /** The value at the end of a path. */
  function At(value: Json, path: seq<Step>): Option<Json>
    decreases |path|
  {
    if path == [] then Some(value)
    else match path[0]
      case Key(key) => if value.Obj? && key in value.fields then At(value.fields[key], path[1..]) else None
      case Index(index) => if value.Arr? && index < |value.items| then At(value.items[index], path[1..]) else None
  }

  predicate Open(path: seq<Step>) {
    forall i | 0 <= i < |path| && path[i].Key? :: !SensitiveConfigKey(path[i].key)
  }

  function RedactOption(value: Option<Json>): Option<Json> {
    if value.Some? then Some(Redact(value.value)) else None
  }

  /** Off the sensitive keys every place stays where it was: same keys, same lengths, same scalars. */
  lemma {:induction false} OpenPlacesStay(value: Json, path: seq<Step>)
    requires Open(path)
    ensures At(Redact(value), path) == RedactOption(At(value, path))
    decreases |path|
  {
    hide SensitiveConfigKey;
    if path != [] {
      var rest := path[1..];
      forall i | 0 <= i < |rest| && rest[i].Key? ensures !SensitiveConfigKey(rest[i].key) {
        assert rest[i] == path[i + 1];
      }
      match path[0] {
        case Key(key) =>
          assert !SensitiveConfigKey(path[0].key);
          if value.Obj? && key in value.fields { OpenPlacesStay(value.fields[key], rest); }
        case Index(index) =>
          if value.Arr? && index < |value.items| { OpenPlacesStay(value.items[index], rest); }
      }
    }
  }

  lemma {:induction false} AtConcat(value: Json, a: seq<Step>, b: seq<Step>)
    ensures At(value, a + b) == if At(value, a).Some? then At(At(value, a).value, b) else None
    decreases |a|
  {
    if a == [] {
      assert a + b == b;
    } else {
      assert (a + b)[1..] == a[1..] + b;
      match a[0] {
        case Key(key) => if value.Obj? && key in value.fields { AtConcat(value.fields[key], a[1..], b); }
        case Index(index) => if value.Arr? && index < |value.items| { AtConcat(value.items[index], a[1..], b); }
      }
    }
  }

  /** Behind a sensitive key there is the marker and nothing below it. */
  lemma {:induction false} SecretsAreGone(value: Json, path: seq<Step>, key: string, rest: seq<Step>)
    requires Open(path) && SensitiveConfigKey(key)
    ensures At(Redact(value), path + [Key(key)] + rest) ==
      if At(value, path + [Key(key)]).Some? && rest == [] then Some(MARKER) else None
  {
    hide SensitiveConfigKey;
    OpenPlacesStay(value, path);
    AtConcat(Redact(value), path, [Key(key)]);
    AtConcat(Redact(value), path + [Key(key)], rest);
    AtConcat(value, path, [Key(key)]);
  }

  // ---- Redaction and validation agree ----

  /** Every array directly inside an array is clean. */
  predicate InnerArraysClean(value: Json) {
    match value
    case Obj(fields) => forall k | k in fields :: InnerArraysClean(fields[k])
    case Arr(items) =>
      forall i | 0 <= i < |items| :: if items[i].Arr? then Clean(items[i]) else InnerArraysClean(items[i])
    case _ => true
  }

  /** What validation looks at is clean exactly when the arrays it does not look into are. */
  lemma {:induction false} PassingIsCleanIff(value: Json)
    requires Passes(value)
    ensures Clean(value) <==> InnerArraysClean(value)
  {
    hide SensitiveConfigKey;
    match value {
      case Obj(fields) =>
        forall k | k in fields ensures !SensitiveConfigKey(k) && (Clean(fields[k]) <==> InnerArraysClean(fields[k])) {
          PassingIsCleanIff(fields[k]);
        }
      case Arr(items) =>
        forall i | 0 <= i < |items| && !items[i].Arr? ensures Clean(items[i]) <==> InnerArraysClean(items[i]) {
          PassingIsCleanIff(items[i]);
        }
      case _ =>
    }
  }

  /** An accepted configuration is returned unchanged exactly when its arrays inside arrays are clean. */
  lemma {:induction false} AcceptedUnchangedIff(config: Json)
    requires config.Obj? && Accepts(config)
    ensures Redact(config) == config <==> InnerArraysClean(config)
  {
    hide Clean, InnerArraysClean, Redact, Accepts;
    UnchangedIffClean(config);
    PassingIsCleanIff(config);
  }

  predicate NoArrayInArray(value: Json) {
    match value
    case Obj(fields) => forall k | k in fields :: NoArrayInArray(fields[k])
    case Arr(items) => forall i | 0 <= i < |items| :: !items[i].Arr? && NoArrayInArray(items[i])
    case _ => true
  }

  lemma {:induction false} NoArrayInArrayIsEnough(value: Json)
    requires NoArrayInArray(value)
    ensures InnerArraysClean(value)
  {
    match value {
      case Obj(fields) =>
        forall k | k in fields ensures InnerArraysClean(fields[k]) { NoArrayInArrayIsEnough(fields[k]); }
      case Arr(items) =>
        forall i | 0 <= i < |items| ensures InnerArraysClean(items[i]) { NoArrayInArrayIsEnough(items[i]); }
      case _ =>
    }
  }

  /** Without an array directly inside an array, whatever validation accepts is unchanged by redaction. */
  lemma {:induction false} AcceptedWithoutInnerArraysUnchanged(config: Json)
    requires config.Obj? && Accepts(config) && NoArrayInArray(config)
    ensures Redact(config) == config
  {
    hide Redact, Accepts, NoArrayInArray, InnerArraysClean;
    NoArrayInArrayIsEnough(config);
    AcceptedUnchangedIff(config);
  }

  lemma UncleanItem(value: Json)
    requires !Clean(value)
    ensures !Clean(Arr([value]))
  {
    assert [value][0] == value;
  }

  lemma UncleanField(key: string, value: Json)
    requires if SensitiveConfigKey(key) then value != MARKER else !Clean(value)
    ensures !Clean(Obj(map[key := value]))
  {
    hide SensitiveConfigKey;
    assert key in map[key := value];
  }

  lemma NestedArrayAccepted(key: string, item: Json)
    requires !SensitiveConfigKey(key)
    ensures Accepts(Obj(map[key := Arr([Arr([item])])]))
  {
    hide SensitiveConfigKey;
  }

  /** Validation misses a secret in an array inside an array; redaction does not. */
  lemma {:induction false} NestedArrayIsMissed(secret: string)
    requires secret != "[redacted]"
    ensures
      var config := Obj(map["dns" := Arr([Arr([Obj(map["token" := Str(secret)])])])]);
      Accepts(config) && Redact(config) != config
  {
    hide SensitiveConfigKey, Accepts, Clean, Redact;
    var inner := Obj(map["token" := Str(secret)]);
    TokenIsSensitive();
    ShortKeyIsNot("dns");
    NestedArrayAccepted("dns", inner);
    UncleanField("token", Str(secret));
    UncleanItem(inner);
    UncleanItem(Arr([inner]));
    UncleanField("dns", Arr([Arr([inner])]));
    UnchangedIffClean(Obj(map["dns" := Arr([Arr([inner])])]));
  }

  lemma TokenIsSensitive()
    ensures SensitiveConfigKey("token")
  {
    assert Spaces.TrimSpace("token") == "token" by {
      assert Spaces.SkipSpaces("token", 0) == 0 && Spaces.SkipSpacesBack("token", 5) == 5;
      assert !Spaces.IsSpace("token"[0]);
    }
    assert Normalized("token") == "token";
    assert Occurs("token", "token", 0);
    assert TOKENS[0] == "token";
  }

  lemma ShortKeyIsNot(key: string)
    requires |key| < 5
    ensures !SensitiveConfigKey(key)
  {
    hide Spaces.SkipSpaces, Spaces.SkipSpacesBack, Spaces.Blank;
  }
}
