/** Configuration loading and validation (`config.py`). The environment is
    a record of optional values; numeric variables arrive already parsed. */
module Config {
  import opened Common
  import opened Strings

  /** The environment variables the configuration reads (absent = `None`). */
  datatype Env = Env(
    network: Option<string>,
    privateKey: Option<string>,
    symbol: Option<string>,
    side: Option<string>,
    size: Option<real>,
    monitorTimeout: Option<int>,
    monitorInterval: Option<real>,
    latencyThreshold: Option<int>)

  datatype Settings = Settings(
    network: string,
    isTestnet: bool,
    rpcUrl: string,
    privateKey: string,
    symbol: string,
    side: string,
    size: real,
    monitorTimeout: int,
    monitorInterval: real,
    latencyThreshold: int,
    saveResults: bool)

  const TestnetUrl := "https://api.hyperliquid-testnet.xyz"
  const MainnetUrl := "https://api.hyperliquid.xyz"

  /** `NETWORK.lower() == "testnet"`. */
  predicate IsTestnet(network: string) {
    Lower(network) == "testnet"
  }

  function RpcUrl(network: string): (url: string)
    ensures url == TestnetUrl <==> IsTestnet(network)
    ensures url == MainnetUrl <==> !IsTestnet(network)
  {
    if IsTestnet(network) then TestnetUrl else MainnetUrl
  }

  /** The default `LATENCY_THRESHOLD` in milliseconds. */
  function DefaultThreshold(isTestnet: bool): int {
    if isTestnet then 10000 else 5000
  }

  function HasPrefix0x(s: string): bool {
    |s| >= 2 && s[..2] == "0x"
  }

  /** The private key with a `0x` prefix added when it lacks one. */
  function NormalizeKey(key: string): (k: string)
    ensures HasPrefix0x(k)
    ensures HasPrefix0x(key) ==> k == key
    ensures !HasPrefix0x(key) ==> k == "0x" + key
  {
    if HasPrefix0x(key) then key else "0x" + key
  }

  /** Normalising twice is normalising once. */
  lemma NormalizeIdempotent(key: string)
    ensures NormalizeKey(NormalizeKey(key)) == NormalizeKey(key)
  {
  }

  /** Importing the configuration: an unset or empty `PRIVATE_KEY` raises;
      everything else falls back to its default. */
  function Load(env: Env): (r: Result<Settings, string>)
    ensures r.Err? <==> env.privateKey.None? || env.privateKey.value == ""
    ensures r.Ok? ==>
              && r.value.network == env.network.GetOr("testnet")
              && r.value.isTestnet == IsTestnet(r.value.network)
              && (r.value.rpcUrl == TestnetUrl <==> r.value.isTestnet)
              && r.value.privateKey == NormalizeKey(env.privateKey.value)
              && r.value.latencyThreshold == env.latencyThreshold.GetOr(DefaultThreshold(r.value.isTestnet))
              && r.value.saveResults
  {
    var network := env.network.GetOr("testnet");
    var testnet := IsTestnet(network);
    match env.privateKey
    case None => Err("Please set PRIVATE_KEY environment variable")
    case Some(key) =>
      if key == "" then Err("Please set PRIVATE_KEY environment variable")
      else Ok(Settings(
        network := network,
        isTestnet := testnet,
        rpcUrl := RpcUrl(network),
        privateKey := NormalizeKey(key),
        symbol := env.symbol.GetOr("SOL"),
        side := env.side.GetOr("B"),
        size := env.size.GetOr(0.1),
        monitorTimeout := env.monitorTimeout.GetOr(300),
        monitorInterval := env.monitorInterval.GetOr(0.1),
        latencyThreshold := env.latencyThreshold.GetOr(DefaultThreshold(testnet)),
        saveResults := true))
  }

  /** With no `LATENCY_THRESHOLD` set the threshold is 10000 ms on testnet and 5000 ms otherwise. */
  lemma DefaultThresholdByNetwork(env: Env)
    requires env.privateKey.Some? && env.privateKey.value != ""
    requires env.latencyThreshold.None?
    ensures Load(env).Ok?
    ensures Load(env).value.latencyThreshold == if IsTestnet(env.network.GetOr("testnet")) then 10000 else 5000
  {
  }

  /** `NETWORK` selects testnet exactly when it spells "testnet" with each
      letter in either case; names that agree up to case select the same
      network, RPC URL and default threshold. */
  lemma {:induction false} TestnetIgnoresCase(network: string, other: string)
    ensures IsTestnet(network) <==>
              |network| == 7 && forall i :: 0 <= i < 7 ==> network[i] == "testnet"[i] || network[i] == "TESTNET"[i]
    ensures Lower(network) == Lower(other) ==>
              && IsTestnet(network) == IsTestnet(other)
              && RpcUrl(network) == RpcUrl(other)
              && DefaultThreshold(IsTestnet(network)) == DefaultThreshold(IsTestnet(other))
  {
    var low := Lower(network);
    if IsTestnet(network) {
      forall i | 0 <= i < 7
        ensures network[i] == "testnet"[i] || network[i] == "TESTNET"[i]
      {
        assert LowerChar(network[i]) == "testnet"[i];
      }
    }
    if |network| == 7 && forall i :: 0 <= i < 7 ==> network[i] == "testnet"[i] || network[i] == "TESTNET"[i] {
      forall i | 0 <= i < 7
        ensures low[i] == "testnet"[i]
      {
        assert LowerChar(network[i]) == "testnet"[i];
      }
      assert low == "testnet";
    }
  }

  // ---------------------------------------------------------------------------
  // validate_config

  datatype ConfigError = KeyLength | KeyNotHex | BadSide | BadSize

  predicate IsHexDigit(c: char) {
    '0' <= c <= '9' || 'a' <= c <= 'f' || 'A' <= c <= 'F'
  }

  /** `int(clean_key, 16)` succeeds: simplified to a non-empty string of hex digits. */
  predicate KeyIsHex(clean: string) {
    |clean| > 0 && forall i :: 0 <= i < |clean| ==> IsHexDigit(clean[i])
  }

  /** `PRIVATE_KEY.replace("0x", "")`: every occurrence goes, not only a prefix. */
  function CleanKey(key: string): string {
    RemoveAll(key, "0x")
  }

  /** The errors `validate_config` collects, in the order it checks them; no
      check stops the later ones. */
  function ConfigErrors(s: Settings): (errs: seq<ConfigError>)
    ensures KeyLength in errs <==> |CleanKey(s.privateKey)| != 64
    ensures KeyNotHex in errs <==> !KeyIsHex(CleanKey(s.privateKey))
    ensures BadSide in errs <==> s.side != "A" && s.side != "B"
    ensures BadSize in errs <==> s.size <= 0.0
    ensures forall i, j :: 0 <= i < j < |errs| ==> errs[i] != errs[j]
  {
    var clean := CleanKey(s.privateKey);
    (if |clean| != 64 then [KeyLength] else [])
    + (if !KeyIsHex(clean) then [KeyNotHex] else [])
    + (if s.side != "A" && s.side != "B" then [BadSide] else [])
    + (if s.size <= 0.0 then [BadSize] else [])
  }

  /** `validate_config` returns true exactly when no check failed. */
  function ValidateConfig(s: Settings): (ok: bool)
    ensures ok <==> && |CleanKey(s.privateKey)| == 64
                    && KeyIsHex(CleanKey(s.privateKey))
                    && (s.side == "A" || s.side == "B")
                    && s.size > 0.0
  {
    |ConfigErrors(s)| == 0
  }

  /** A 64-digit hex key is accepted whether or not it was given with `0x`. */
  lemma {:induction false} HexKeyAccepted(hex: string, s: Settings)
    requires |hex| == 64 && KeyIsHex(hex)
    requires s.privateKey == NormalizeKey(hex) || s.privateKey == NormalizeKey("0x" + hex)
    ensures CleanKey(s.privateKey) == hex
    ensures ValidateConfig(s) <==> (s.side == "A" || s.side == "B") && s.size > 0.0
  {
    RemoveAllAbsentX(hex);
    assert ("0x" + hex)[..2] == "0x";
    RemoveAllPrefix("0x", hex);
  }

  /** Removing "0x" from a string without 'x' changes nothing. */
  lemma {:induction false} RemoveAllAbsentX(s: string)
    requires forall i :: 0 <= i < |s| ==> s[i] != 'x'
    ensures RemoveAll(s, "0x") == s
    decreases |s|
  {
    if |s| >= 2 {
      assert s[..2] != "0x" by { assert s[1] != 'x'; }
      RemoveAllAbsentX(s[1..]);
      assert [s[0]] + s[1..] == s;
    }
  }

  /** An upper-case `0X` prefix is not recognised: `0x` is added in front and
      the cleaned key keeps the `0X`, so a 64-digit key given this way fails
      the length check. */
  lemma UpperCasePrefixRejected(hex: string)
    requires |hex| == 64 && KeyIsHex(hex)
    ensures |CleanKey(NormalizeKey("0X" + hex))| == 66
  {
    RemoveAllPrefix("0x", "0X" + hex);
    RemoveAllAbsentX("0X" + hex);
  }
}
