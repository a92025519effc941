/**
 The overlay of a VolumeAttributesClass on a volume's static attributes: accepted and persisted by
 the controller, merged and validated by the node whenever it stages the volume.
 */
module VolumeAttributes {
  import opened Common

  type Params = map<string, string>

  const WRITEBACK_CACHE := "writebackCache"
  const DLM := "dlm"
  const DATA_LOCALITY := "dataLocality"
  const CAPACITY := "volumeCapacity"

  predicate IsInteger(key: string) {
    key in {"concurrentReaders", "concurrentWriters", "cacheCapacityMB", "wholeCacheCapacityMB",
            "readerCacheSizeMB", "cacheMetaTtlSec", "chunkSizeLimitMB", "metadataFlushSeconds"}
  }

  predicate IsBoolean(key: string) {
    key == WRITEBACK_CACHE || key == DLM
  }

  /** The keys a class may change; every other one is structural. */
  predicate IsMutable(key: string) {
    || IsInteger(key) || IsBoolean(key) || key == DATA_LOCALITY
    || key in {"diskType", "replication", "ttl", "dataCenter", "uidMap", "gidMap", "volumeServerAccess", "readRetryTime"}
  }

  /** The parameters a class may change, one by one. */
  const MUTABLE_KEYS := {
    "concurrentReaders", "concurrentWriters", "cacheCapacityMB", "wholeCacheCapacityMB", "readerCacheSizeMB", "cacheMetaTtlSec",
    "chunkSizeLimitMB", "metadataFlushSeconds", "writebackCache", "dlm", "dataLocality",
    "diskType", "replication", "ttl", "dataCenter", "uidMap", "gidMap", "volumeServerAccess", "readRetryTime"}

  lemma MutableKeysAreListed(key: string)
    ensures IsMutable(key) <==> key in MUTABLE_KEYS
    ensures !IsMutable(CAPACITY)
  {
  }

  // ----- values -----

  function ParseBool(value: string): Option<bool> {
    if value in {"1", "t", "T", "TRUE", "true", "True"} then Some(true)
    else if value in {"0", "f", "F", "FALSE", "false", "False"} then Some(false)
    else None
  }

  function Digits(value: string): Option<nat> {
    if value == "" then Some(0)
    else
      var front, digit := Digits(value[..|value| - 1]), value[|value| - 1] as int - '0' as int;
      if front.Some? && 0 <= digit <= 9 then Some(10 * front.value + digit) else None
  }

  /** A 64-bit decimal integer with an optional sign. */
  function ParseInt(value: string): Option<int> {
    var signed := value != "" && (value[0] == '-' || value[0] == '+');
    var digits := if signed then value[1..] else value;
    if digits == "" || Digits(digits).None? then None
    else
      var magnitude: int := Digits(digits).value;
      var n := if value[0] == '-' then -magnitude else magnitude;
      if -0x8000_0000_0000_0000 <= n < 0x8000_0000_0000_0000 then Some(n) else None
  }

  function Decimal(n: nat): string {
    var last := [(n % 10 + '0' as int) as char];
    if n < 10 then last else Decimal(n / 10) + last
  }

  function Lower(value: string): string {
    seq(|value|, i requires 0 <= i < |value| => if 'A' <= value[i] <= 'Z' then (value[i] as int + 32) as char else value[i])
  }

  lemma {:induction false} DecimalDigits(n: nat)
    ensures Digits(Decimal(n)) == Some(n)
    ensures Decimal(n) != "" && Decimal(n)[0] != '-' && Decimal(n)[0] != '+'
  {
    var s := Decimal(n);
    var last := (n % 10 + '0' as int) as char;
    if n < 10 {
      assert s == [last] && s[..0] == "";
    } else {
      DecimalDigits(n / 10);
      assert s == Decimal(n / 10) + [last] && s[..|s| - 1] == Decimal(n / 10);
    }
  }

  /** A 64-bit integer written in decimal, with a sign or without one, is read back, and no larger one is. */
  lemma IntegersReadBack(n: int)
    requires n >= 0
    ensures ParseInt(Decimal(n)) == ParseInt("+" + Decimal(n)) == if n < 0x8000_0000_0000_0000 then Some(n) else None
    ensures n <= 0x8000_0000_0000_0000 ==> ParseInt("-" + Decimal(n)) == Some(-n)
    ensures n > 0x8000_0000_0000_0000 ==> ParseInt("-" + Decimal(n)).None?
  {
    DecimalDigits(n);
    assert ("-" + Decimal(n))[1..] == Decimal(n) && ("+" + Decimal(n))[1..] == Decimal(n);
  }

  function Upper(value: string): string {
    seq(|value|, i requires 0 <= i < |value| => if 'a' <= value[i] <= 'z' then (value[i] as int - 32) as char else value[i])
  }

  /** How a truth value may be written: as a digit, or as a word or its first letter, in small letters, capitals or capitalized. */
  function Spellings(digit: string, word: string): set<string>
    requires word != ""
  {
    {digit, word[..1], Upper(word[..1]), word, Upper(word), Upper(word[..1]) + word[1..]}
  }

  lemma BooleansReadBack(value: string)
    ensures ParseBool(value) == Some(true) <==> value in Spellings("1", "true")
    ensures ParseBool(value) == Some(false) <==> value in Spellings("0", "false")
  {
    assert "true"[..1] == "t" && "true"[1..] == "rue" && Upper("t") == "T" && Upper("true") == "TRUE";
    assert "false"[..1] == "f" && "false"[1..] == "alse" && Upper("f") == "F" && Upper("false") == "FALSE";
    assert "T" + "rue" == "True" && "F" + "alse" == "False";
  }

  predicate ValidValue(key: string, value: string) {
    || value == ""
    || (if key == DATA_LOCALITY then Lower(value) in {"none", "write_preferlocaldc"}
        else if IsInteger(key) then ParseInt(value).Some?
        else if IsBoolean(key) then ParseBool(value).Some?
        else true)
  }

  predicate AllDigits(s: string) {
    forall i | 0 <= i < |s| :: '0' <= s[i] <= '9'
  }

  lemma {:induction false} DigitsIffAllDigits(s: string)
    ensures Digits(s).Some? <==> AllDigits(s)
  {
    if s != "" {
      var front := s[..|s| - 1];
      DigitsIffAllDigits(front);
      assert forall i | 0 <= i < |front| :: front[i] == s[i];
      assert forall i | 0 <= i < |s| :: i == |s| - 1 || s[i] == front[i];
    }
  }

  /** An optional sign, digits, and a magnitude that fits into 64 bits with that sign. */
  predicate IsNumeral(value: string, sign: string, digits: string) {
    && sign in {"", "+", "-"} && digits != "" && AllDigits(digits) && value == sign + digits
    && Digits(digits).Some? && (Digits(digits).value as int) < 0x8000_0000_0000_0000 + if sign == "-" then 1 else 0
  }

  lemma IntegersAreNumerals(value: string)
    ensures ParseInt(value).Some? <==> exists sign: string, digits: string :: IsNumeral(value, sign, digits)
  {
    if ParseInt(value).Some? {
      var signed := value != "" && (value[0] == '-' || value[0] == '+');
      var sign, digits := if signed then value[..1] else "", if signed then value[1..] else value;
      DigitsIffAllDigits(digits);
      assert value == sign + digits;
      assert signed ==> sign == [value[0]];
      assert IsNumeral(value, sign, digits);
    }
    forall sign: string, digits: string | IsNumeral(value, sign, digits)
      ensures ParseInt(value).Some?
    {
      assert sign == "" ==> value == digits;
      assert sign != "" ==> value[1..] == digits && value[0] == sign[0];
      assert '0' <= digits[0] <= '9';
    }
  }

  /** A word, each letter small or capital. */
  predicate SpelledAs(value: string, word: string) {
    |value| == |word| && forall i | 0 <= i < |word| :: value[i] == word[i] || value[i] == Upper(word)[i]
  }

  lemma LowerIffSpelled(value: string, word: string)
    requires forall i | 0 <= i < |word| :: !('A' <= word[i] <= 'Z')
    ensures Lower(value) == word <==> SpelledAs(value, word)
  {
    if SpelledAs(value, word) {
      assert forall i | 0 <= i < |word| :: Lower(value)[i] == word[i];
    }
  }

  /** What each parameter may be set to, besides nothing at all. */
  lemma ValuesAllowed(key: string, value: string)
    requires value != ""
    ensures key == DATA_LOCALITY ==>
              (ValidValue(key, value) <==> SpelledAs(value, "none") || SpelledAs(value, "write_preferlocaldc"))
    ensures key in {WRITEBACK_CACHE, DLM} ==>
              (ValidValue(key, value) <==> value in Spellings("1", "true") + Spellings("0", "false"))
    ensures key in {"concurrentReaders", "concurrentWriters", "cacheCapacityMB", "wholeCacheCapacityMB",
                    "readerCacheSizeMB", "cacheMetaTtlSec", "chunkSizeLimitMB", "metadataFlushSeconds"} ==>
              (ValidValue(key, value) <==> exists sign: string, digits: string :: IsNumeral(value, sign, digits))
    ensures key in {"diskType", "replication", "ttl", "dataCenter", "uidMap", "gidMap", "volumeServerAccess", "readRetryTime"} ==>
              ValidValue(key, value)
    ensures ValidValue(key, "")
  {
    IntegersAreNumerals(value);
    BooleansReadBack(value);
    LowerIffSpelled(value, "none");
    LowerIffSpelled(value, "write_preferlocaldc");
  }

  function Get(params: Params, key: string): Option<string> {
    if key in params then Some(params[key]) else None
  }

  // ----- validation -----

  predicate ValuesValid(params: Params) {
    forall key | key in params && IsMutable(key) :: ValidValue(key, params[key])
  }

  predicate AllMutable(params: Params) {
    forall key | key in params :: IsMutable(key)
  }

  predicate On(params: Params, key: string) {
    key in params && ParseBool(params[key]) == Some(true)
  }

  /** Write-back caching together with the lock manager is refused. */
  predicate ComboValid(params: Params) {
    !(On(params, WRITEBACK_CACHE) && On(params, DLM))
  }

  /** The two validations before a mount command is built. */
  predicate StageValid(params: Params) {
    ValuesValid(params) && ComboValid(params)
  }

  method ValidateConstrainedParameterValues(params: Params) returns (valid: bool)
    ensures valid <==> ValuesValid(params)
  {
    var pending := params.Keys;
    while pending != {}
      invariant pending <= params.Keys
      invariant forall key | key in params && key !in pending && IsMutable(key) :: ValidValue(key, params[key])
      decreases |pending|
    {
      var key :| key in pending;
      pending := pending - {key};
      if !IsMutable(key) {
        continue;
      }
      if !ValidValue(key, params[key]) {
        return false;
      }
    }
    valid := true;
  }

  method ValidateMutableParameters(params: Params) returns (valid: bool)
    ensures valid <==> AllMutable(params) && StageValid(params)
  {
    var unknown, invalid := {}, {};
    var pending := params.Keys;
    while pending != {}
      invariant pending <= params.Keys
      invariant unknown == {} <==> forall key | key in params && key !in pending :: IsMutable(key)
      invariant invalid == {} <==> forall key | key in params && key !in pending && IsMutable(key) :: ValidValue(key, params[key])
      decreases |pending|
    {
      var key :| key in pending;
      pending := pending - {key};
      if !IsMutable(key) {
        unknown := unknown + {key};
        continue;
      }
      if !ValidValue(key, params[key]) {
        invalid := invalid + {key};
      }
    }
    valid := unknown == {} && invalid == {} && ComboValid(params);
  }

  // ----- the overlay -----

  function Mutable(params: Params): Params {
    map key | key in params && IsMutable(key) :: params[key]
  }

  function Overlay(context: Params, persisted: Params): Params {
    context + Mutable(persisted)
  }

  lemma SameLookups(a: Params, b: Params)
    requires forall key :: Get(a, key) == Get(b, key)
    ensures a == b
  {
    assert forall key :: key in a <==> Get(a, key).Some?;
    assert forall key :: key in b <==> Get(b, key).Some?;
    assert forall key | key in a :: Get(a, key).value == a[key] && Get(b, key).value == b[key];
  }

  /** Sets the keys one after the other; those that are not mutable are ignored. */
  method MergePersistedVolumeAttributes(context: Params, persisted: Params) returns (merged: Params)
    ensures merged == Overlay(context, persisted)
  {
    merged := context;
    var pending := persisted.Keys;
    while pending != {}
      invariant pending <= persisted.Keys
      invariant forall key :: Get(merged, key) ==
                  if key in persisted && key !in pending && IsMutable(key) then Some(persisted[key]) else Get(context, key)
      decreases |pending|
    {
      var key :| key in pending;
      pending := pending - {key};
      if !IsMutable(key) {
        continue;
      }
      merged := merged[key := persisted[key]];
    }
    OverlayByLookup(context, persisted, merged);
  }

  lemma OverlayByLookup(context: Params, persisted: Params, merged: Params)
    requires forall key :: Get(merged, key) == if key in persisted && IsMutable(key) then Some(persisted[key]) else Get(context, key)
    ensures merged == Overlay(context, persisted)
  {
    SameLookups(merged, Overlay(context, persisted));
  }

  /** What a modification is checked against: the mutable static attributes with the class on top. */
  function Effective(pv: Params, params: Params): Params {
    Mutable(pv) + params
  }

  predicate Accepted(pv: Params, params: Params) {
    params != map[] && AllMutable(params) && StageValid(params) && StageValid(Effective(pv, params))
  }

  lemma OverlayLookup(context: Params, persisted: Params, key: string)
    ensures Get(Overlay(context, persisted), key) ==
            if key in persisted && IsMutable(key) then Some(persisted[key]) else Get(context, key)
    ensures AllMutable(persisted) && IsMutable(key) ==> Get(Effective(context, persisted), key) == Get(Overlay(context, persisted), key)
  {
  }

  lemma SameValidity(a: Params, b: Params)
    requires forall key | IsMutable(key) :: Get(a, key) == Get(b, key)
    ensures StageValid(a) <==> StageValid(b)
  {
    assert forall key | IsMutable(key) :: key in a <==> Get(a, key).Some?;
    assert forall key | IsMutable(key) :: key in b <==> Get(b, key).Some?;
    assert forall key | IsMutable(key) && key in a :: Get(a, key).value == a[key];
    assert forall key | IsMutable(key) && key in b :: Get(b, key).value == b[key];
    assert IsMutable(WRITEBACK_CACHE) && IsMutable(DLM);
  }

  /**
   A set of mutable parameters is accepted for a volume if and only if both ways of staging it later
   are valid: from the volume's static attributes and from an empty context.
   */
  lemma AcceptedIffStagesValid(pv: Params, params: Params)
    ensures Accepted(pv, params) <==>
            && params != map[] && AllMutable(params)
            && StageValid(Overlay(pv, params)) && StageValid(Overlay(map[], params))
  {
    if AllMutable(params) {
      forall key | IsMutable(key)
        ensures Get(Effective(pv, params), key) == Get(Overlay(pv, params), key)
        ensures Get(params, key) == Get(Overlay(map[], params), key)
      {
        OverlayLookup(pv, params, key);
        OverlayLookup(map[], params, key);
      }
      SameValidity(Effective(pv, params), Overlay(pv, params));
      SameValidity(params, Overlay(map[], params));
    }
  }

  // ----- staging again from a context that earlier classes were merged into -----

  /** The context after staging with one class after the other, each merged into the context before. */
  function Merged(base: Params, classes: seq<Params>): Params {
    if classes == [] then base else Overlay(Merged(base, classes[..|classes| - 1]), classes[|classes| - 1])
  }

  /** What the last class that sets a key sets it to. */
  function LastSetting(classes: seq<Params>, key: string): Option<string> {
    if classes == [] then None
    else if key in classes[|classes| - 1] then Some(classes[|classes| - 1][key])
    else LastSetting(classes[..|classes| - 1], key)
  }

  lemma {:induction false} LastSettingMeans(classes: seq<Params>, key: string)
    ensures LastSetting(classes, key).Some? <==> exists i | 0 <= i < |classes| :: key in classes[i]
    ensures forall i | 0 <= i < |classes| && key in classes[i] && (forall j | i < j < |classes| :: key !in classes[j]) ::
              LastSetting(classes, key) == Some(classes[i][key])
  {
    if classes != [] {
      LastSettingMeans(classes[..|classes| - 1], key);
      if key !in classes[|classes| - 1] {
        assert forall i | 0 <= i < |classes| - 1 :: classes[..|classes| - 1][i] == classes[i];
      }
    }
  }

  /** Every class was accepted for the volume. */
  predicate AllAccepted(pv: Params, classes: seq<Params>) {
    forall i | 0 <= i < |classes| :: Accepted(pv, classes[i])
  }

  /** A mutable key has the value of the last class that sets it, or of the base. */
  lemma {:induction false} MergedLookup(base: Params, classes: seq<Params>, key: string)
    requires IsMutable(key)
    ensures Get(Merged(base, classes), key) ==
            if LastSetting(classes, key).Some? then LastSetting(classes, key) else Get(base, key)
  {
    if classes != [] {
      MergedLookup(base, classes[..|classes| - 1], key);
      OverlayLookup(Merged(base, classes[..|classes| - 1]), classes[|classes| - 1], key);
    }
  }

  /** The last class of a chain that sets a feature switches it on; or none sets it and it is on in the base. */
  predicate LeftOn(base: Params, classes: seq<Params>, key: string) {
    if LastSetting(classes, key).Some? then ParseBool(LastSetting(classes, key).value) == Some(true) else On(base, key)
  }

  lemma {:induction false} LastSettingIsValid(pv: Params, classes: seq<Params>, key: string)
    requires AllAccepted(pv, classes) && IsMutable(key) && LastSetting(classes, key).Some?
    ensures ValidValue(key, LastSetting(classes, key).value)
  {
    var n := |classes| - 1;
    if key in classes[n] {
      assert Accepted(pv, classes[n]);
    } else {
      LastSettingIsValid(pv, classes[..n], key);
    }
  }

  lemma MergedValuesValid(pv: Params, base: Params, classes: seq<Params>)
    requires base == pv || base == map[]
    requires classes != [] && AllAccepted(pv, classes)
    ensures ValuesValid(Merged(base, classes))
  {
    var merged, last := Merged(base, classes), classes[|classes| - 1];
    forall key | key in merged && IsMutable(key)
      ensures ValidValue(key, merged[key])
    {
      MergedLookup(base, classes, key);
      assert Get(merged, key) == Some(merged[key]);
      if LastSetting(classes, key).Some? {
        LastSettingIsValid(pv, classes, key);
      } else {
        assert Accepted(pv, last) && key !in last;
        assert key in Effective(pv, last) && Effective(pv, last)[key] == pv[key];
      }
    }
  }

  /** Staging with a chain of accepted classes is refused if and only if the chain leaves both exclusive features on. */
  lemma RefusedIffBothLeftOn(pv: Params, base: Params, classes: seq<Params>)
    requires base == pv || base == map[]
    requires classes != [] && AllAccepted(pv, classes)
    ensures !StageValid(Merged(base, classes)) <==> LeftOn(base, classes, WRITEBACK_CACHE) && LeftOn(base, classes, DLM)
  {
    MergedValuesValid(pv, base, classes);
    assert IsMutable(WRITEBACK_CACHE) && IsMutable(DLM);
    OnMerged(base, classes, WRITEBACK_CACHE);
    OnMerged(base, classes, DLM);
  }

  lemma OnMerged(base: Params, classes: seq<Params>, key: string)
    requires IsMutable(key)
    ensures On(Merged(base, classes), key) <==> LeftOn(base, classes, key)
  {
    MergedLookup(base, classes, key);
    var merged := Merged(base, classes);
    assert key in merged <==> Get(merged, key).Some?;
    assert key in merged ==> Get(merged, key).value == merged[key];
    assert key in base ==> Get(base, key).value == base[key];
  }

  /** The class switches one feature on and leaves the other one to the chain, which left it on. */
  predicate FeaturesMeet(base: Params, earlier: seq<Params>, later: Params, feature: string, other: string) {
    On(later, feature) && other !in later && LeftOn(base, earlier, other)
  }

  /**
   The context a recovery stages from already holds every class staged before. The stage is refused
   if and only if the new class switches one of the two exclusive features on and leaves the other
   one alone, and the last earlier class that sets that one, or else the base, switched it on.
   */
  lemma RestageRefusedIffFeaturesMeet(pv: Params, base: Params, earlier: seq<Params>, later: Params)
    requires base == pv || base == map[]
    requires AllAccepted(pv, earlier) && Accepted(pv, later)
    requires earlier != [] ==> StageValid(Merged(base, earlier))
    ensures !StageValid(Overlay(Merged(base, earlier), later)) <==>
            FeaturesMeet(base, earlier, later, WRITEBACK_CACHE, DLM) || FeaturesMeet(base, earlier, later, DLM, WRITEBACK_CACHE)
  {
    var classes := earlier + [later];
    assert classes[..|earlier|] == earlier;
    RefusedIffBothLeftOn(pv, base, classes);
    LeftOnAfter(base, earlier, later, WRITEBACK_CACHE);
    LeftOnAfter(base, earlier, later, DLM);
    NotBothLeftOn(pv, base, earlier, later);
  }

  lemma LeftOnAfter(base: Params, earlier: seq<Params>, later: Params, key: string)
    ensures LeftOn(base, earlier + [later], key) <==> if key in later then On(later, key) else LeftOn(base, earlier, key)
  {
    assert (earlier + [later])[..|earlier|] == earlier;
  }

  /** A class that sets neither feature finds at most one of them on; one that sets both passed its own check. */
  lemma NotBothLeftOn(pv: Params, base: Params, earlier: seq<Params>, later: Params)
    requires base == pv || base == map[]
    requires AllAccepted(pv, earlier) && Accepted(pv, later)
    requires earlier != [] ==> StageValid(Merged(base, earlier))
    ensures !(On(later, WRITEBACK_CACHE) && On(later, DLM))
    ensures WRITEBACK_CACHE !in later && DLM !in later ==>
              !(LeftOn(base, earlier, WRITEBACK_CACHE) && LeftOn(base, earlier, DLM))
  {
    if earlier != [] {
      RefusedIffBothLeftOn(pv, base, earlier);
    } else {
      assert IsMutable(WRITEBACK_CACHE) && IsMutable(DLM);
      OnEffective(pv, later, WRITEBACK_CACHE);
      OnEffective(pv, later, DLM);
    }
  }

  lemma OnEffective(pv: Params, params: Params, key: string)
    requires IsMutable(key)
    ensures On(Effective(pv, params), key) <==> if key in params then On(params, key) else On(pv, key)
  {
  }

  lemma SwitchingOnIsAccepted(key: string)
    requires key == DLM || key == WRITEBACK_CACHE
    ensures Accepted(map[], map[key := "true"]) && On(map[key := "true"], key)
  {
    var params: Params := map[key := "true"];
    assert IsMutable(key) && !IsInteger(key) && key != DATA_LOCALITY;
    assert ParseBool("true") == Some(true) && ValidValue(key, "true");
    assert Effective(map[], params) == params;
    assert params[key] == "true" && params != map[];
  }

  /** Two such classes: each is accepted and staged from the static attributes, and the recovery is refused. */
  lemma LockManagerThenWritebackIsRefused()
    ensures var earlier, later: Params := map[DLM := "true"], map[WRITEBACK_CACHE := "true"];
            && Accepted(map[], earlier) && Accepted(map[], later)
            && StageValid(Overlay(map[], earlier)) && StageValid(Overlay(map[], later))
            && !StageValid(Overlay(Overlay(map[], earlier), later))
  {
    var earlier, later: Params := map[DLM := "true"], map[WRITEBACK_CACHE := "true"];
    SwitchingOnIsAccepted(DLM);
    SwitchingOnIsAccepted(WRITEBACK_CACHE);
    AcceptedIffStagesValid(map[], earlier);
    AcceptedIffStagesValid(map[], later);
    assert [earlier][..0] == [] && Merged(map[], [earlier]) == Overlay(map[], earlier);
    assert LastSetting([earlier], DLM) == Some("true");
    RestageRefusedIffFeaturesMeet(map[], map[], [earlier], later);
  }

  /**
   The recovery's context equals the one a fresh stage would build if and only if what the earlier
   classes leave behind, where the new one is silent, is what the base says.
   */
  lemma EarlierClassesSurviveIff(base: Params, earlier: seq<Params>, later: Params)
    requires AllMutable(later) && forall i | 0 <= i < |earlier| :: AllMutable(earlier[i])
    ensures Overlay(Merged(base, earlier), later) == Overlay(base, later) <==>
            forall key | key !in later && LastSetting(earlier, key).Some? :: LastSetting(earlier, key) == Get(base, key)
  {
    var again, once := Overlay(Merged(base, earlier), later), Overlay(base, later);
    forall key
      ensures Get(again, key) == Get(once, key) <==>
              (key !in later && LastSetting(earlier, key).Some? ==> LastSetting(earlier, key) == Get(base, key))
    {
      OverlayLookup(Merged(base, earlier), later, key);
      OverlayLookup(base, later, key);
      MergedStructure(base, earlier, key);
      if IsMutable(key) {
        MergedLookup(base, earlier, key);
      }
    }
    if forall key :: Get(again, key) == Get(once, key) {
      SameLookups(again, once);
    }
  }

  lemma {:induction false} MergedStructure(base: Params, classes: seq<Params>, key: string)
    requires forall i | 0 <= i < |classes| :: AllMutable(classes[i])
    ensures !IsMutable(key) ==> LastSetting(classes, key).None? && Get(Merged(base, classes), key) == Get(base, key)
  {
    if classes != [] {
      MergedStructure(base, classes[..|classes| - 1], key);
      OverlayLookup(Merged(base, classes[..|classes| - 1]), classes[|classes| - 1], key);
    }
  }

  // ----- the controller and the node -----

  datatype Code = OK | InvalidArgument | Internal

  /** The context a volume is mounted with; none when the stage fails. */
  function StagedContext(context: Params, persisted: Params, orchestrator: Option<nat>): Option<Params> {
    var merged := Overlay(context, persisted);
    if !StageValid(merged) then None
    else
      var capacity := if orchestrator.Some? then orchestrator else ContextCapacity(merged);
      if orchestrator.None? && CapacityGiven(merged) && capacity.None? then None
      else if capacity.Some? then Some(merged[CAPACITY := Decimal(capacity.value)])
      else Some(merged)
  }

  predicate CapacityGiven(context: Params) {
    CAPACITY in context && context[CAPACITY] != ""
  }

  function ContextCapacity(context: Params): Option<nat> {
    if !CapacityGiven(context) then None
    else
      match ParseInt(context[CAPACITY])
      case Some(n) => if n < 0 then None else Some(n as nat)
      case None => None
  }

  /** A capacity in the context is read back; a negative one is no capacity, and an empty one is none given. */
  lemma CapacityReadsBack(context: Params, n: int)
    requires 0 <= n < 0x8000_0000_0000_0000
    ensures ContextCapacity(context[CAPACITY := Decimal(n)]) == Some(n)
    ensures n > 0 ==> CapacityGiven(context[CAPACITY := "-" + Decimal(n)]) && ContextCapacity(context[CAPACITY := "-" + Decimal(n)]).None?
    ensures !CapacityGiven(context[CAPACITY := ""]) && !CapacityGiven(context - {CAPACITY})
  {
    IntegersReadBack(n);
    DecimalDigits(n);
  }

  /** Structural keys come from the context alone, but for the capacity, which the orchestrator may correct. */
  lemma StagedStructureIsTheContexts(context: Params, persisted: Params, orchestrator: Option<nat>, key: string)
    requires StagedContext(context, persisted, orchestrator).Some?
    requires !IsMutable(key) && key != CAPACITY
    ensures Get(StagedContext(context, persisted, orchestrator).value, key) == Get(context, key)
  {
    OverlayLookup(context, persisted, key);
  }

  class VolumeAttributesClasses {
    /** The static attributes of each volume, which never change. */
    const pv: string -> Params
    var entries: map<string, Params>

    /** Whatever is persisted was accepted for its volume. */
    predicate Valid()
      reads this
    {
      forall volume | volume in entries :: Accepted(pv(volume), entries[volume])
    }

    constructor (pv: string -> Params)
      ensures Valid() && this.pv == pv && entries == map[]
    {
      this.pv, entries := pv, map[];
    }

    /** Replaces the whole entry. */
    method Write(volume: string, params: Params, fate: Fate) returns (ok: bool)
      requires Valid() && Accepted(pv(volume), params)
      modifies this
      ensures Valid() && (ok <==> fate == Works)
      ensures entries == if fate == FailsBefore then old(entries) else old(entries)[volume := params]
    {
      if fate != FailsBefore {
        entries := entries[volume := params];
      }
      ok := fate == Works;
    }

    method ControllerModifyVolume(volume: string, params: Params, attributesRead: bool, fate: Fate) returns (code: Code)
      requires Valid()
      modifies this
      ensures Valid()
      ensures code == OK <==> volume != "" && attributesRead && fate == Works && Accepted(pv(volume), params)
      ensures code == OK ==> entries == old(entries)[volume := params]
      ensures code == InvalidArgument ==> entries == old(entries) && (volume == "" || !Accepted(pv(volume), params))
      ensures code == Internal ==> entries == old(entries) || entries == old(entries)[volume := params]
    {
      if volume == "" {
        return InvalidArgument;
      }
      if params == map[] {
        return InvalidArgument;
      }
      var valid := ValidateMutableParameters(params);
      if !valid {
        return InvalidArgument;
      }
      if !attributesRead {
        return Internal;
      }
      var effective := MutableAttributes(pv(volume));
      effective := effective + params;
      valid := ValidateConstrainedParameterValues(effective);
      if !valid || !ComboValid(effective) {
        return InvalidArgument;
      }
      var ok := Write(volume, params, fate);
      code := if ok then OK else Internal;
    }

    method MutableAttributes(attributes: Params) returns (effective: Params)
      ensures effective == Mutable(attributes)
    {
      effective := map[];
      var pending := attributes.Keys;
      while pending != {}
        invariant pending <= attributes.Keys
        invariant forall key :: Get(effective, key) == if key in attributes && key !in pending && IsMutable(key) then Some(attributes[key]) else None
        decreases |pending|
      {
        var key :| key in pending;
        pending := pending - {key};
        if IsMutable(key) {
          effective := effective[key := attributes[key]];
        }
      }
      SameLookups(effective, Mutable(attributes));
    }

    /** From the orchestrator, or else from the context. */
    method ResolveVolumeCapacity(context: Params, orchestrator: Option<nat>) returns (resolved: bool, capacity: Option<nat>)
      ensures resolved <==> orchestrator.Some? || !CapacityGiven(context) || ContextCapacity(context).Some?
      ensures capacity == if orchestrator.Some? then orchestrator else ContextCapacity(context)
    {
      if orchestrator.Some? {
        return true, orchestrator;
      }
      capacity := ContextCapacity(context);
      resolved := !CapacityGiven(context) || capacity.Some?;
    }

    /** The persisted entry merged in and validated. */
    method MergedContext(volume: string, context: Params) returns (merged: Params, valid: bool)
      ensures merged == Overlay(context, if volume in entries then entries[volume] else map[])
      ensures valid <==> StageValid(merged)
    {
      var persisted: Params := map[];
      if volume in entries {
        persisted := entries[volume];
      }
      merged := MergePersistedVolumeAttributes(context, persisted);
      valid := ValidateConstrainedParameterValues(merged);
      valid := valid && ComboValid(merged);
    }

    /** The part of a stage that builds the mount's context. */
    method StageContext(volume: string, context: Params, entryRead: bool, orchestrator: Option<nat>) returns (staged: Option<Params>)
      requires Valid()
      ensures !entryRead ==> staged.None?
      ensures entryRead ==> staged == StagedContext(context, if volume in entries then entries[volume] else map[], orchestrator)
      ensures volume in entries && (context == pv(volume) || context == map[]) ==> StageValid(Overlay(context, entries[volume]))
    {
      if volume in entries {
        AcceptedIffStagesValid(pv(volume), entries[volume]);
      }
      if !entryRead {
        return None;
      }
      var merged, valid := MergedContext(volume, context);
      if !valid {
        return None;
      }
      var resolved, capacity := ResolveVolumeCapacity(merged, orchestrator);
      if !resolved {
        return None;
      }
      if capacity.Some? {
        merged := merged[CAPACITY := Decimal(capacity.value)];
      }
      staged := Some(merged);
    }

    /** The entry goes with the volume. */
    method Delete(volume: string, fate: Fate) returns (ok: bool)
      requires Valid()
      modifies this
      ensures Valid() && (ok <==> fate == Works)
      ensures entries == if fate == FailsBefore then old(entries) else old(entries) - {volume}
    {
      if fate != FailsBefore {
        entries := entries - {volume};
      }
      ok := fate == Works;
    }
  }
}
