/**
 * The network table of the KucoCoin command-line tools (src/config.ts):
 * each network's connection settings and the Avalanche-style C-chain RPC
 * URL built from them.
 */
module Networks {

  datatype Option<T> = None | Some(value: T)

  /** The connection settings of one network. */
  datatype NetworkConfig = NetworkConfig(
    protocol: string,
    ip: string,
    port: Option<int>,   // absent for the public endpoints
    networkID: int,
    hrp: string)

  /** One entry of `networkInfo`: the settings, the RPC URL, and two contract addresses. */
  datatype NetworkInfo = NetworkInfo(config: NetworkConfig, rpc: string, wNat: string, dex: string)

  /** The path of the C-chain RPC endpoint on every node. */
  const RpcPath: string := "/ext/bc/C/rpc"

  /** The decimal digit for `d`. */
  function Digit(d: nat): char
    requires d < 10
  {
    "0123456789"[d]
  }

  /** The value of a decimal digit character. */
  function DigitValue(c: char): nat
  {
    if '0' <= c <= '9' then (c - '0') as nat else 0
  }

  /** The decimal numeral of `n` as a template string renders it. */
  function DecimalDigits(n: nat): (s: string)
    ensures |s| >= 1
    ensures forall i :: 0 <= i < |s| ==> '0' <= s[i] <= '9'
    ensures ':' !in s && '/' !in s
  {
    if n < 10 then [Digit(n)]
    else DecimalDigits(n / 10) + [Digit(n % 10)]
  }

  /** The number a string of decimal digits stands for. */
  function ParseDecimal(s: string): nat
  {
    if s == [] then 0
    else 10 * ParseDecimal(s[..|s| - 1]) + DigitValue(s[|s| - 1])
  }

  /** A rendered numeral reads back as the number it renders, and only zero renders with a leading zero. */
  lemma {:induction false} DecimalDigitsRoundTrip(n: nat)
    ensures ParseDecimal(DecimalDigits(n)) == n
    ensures DecimalDigits(n)[0] == '0' ==> n == 0
  {
    if n >= 10 {
      DecimalDigitsRoundTrip(n / 10);
      ParseAppend(DecimalDigits(n / 10), Digit(n % 10));
      DigitReadsBack(n % 10);
    } else {
      DigitReadsBack(n);
    }
  }

  /** Appending a digit shifts the number one decimal place and adds the digit. */
  lemma ParseAppend(s: string, c: char)
    ensures ParseDecimal(s + [c]) == 10 * ParseDecimal(s) + DigitValue(c)
    ensures (s + [c])[0] == if s == [] then c else s[0]
  {
    assert (s + [c])[..|s|] == s;
  }

  /** A digit reads back as its value. */
  lemma DigitReadsBack(d: nat)
    requires d < 10
    ensures DigitValue(Digit(d)) == d
    ensures Digit(d) == '0' <==> d == 0
  {
  }

  /** `${port}` for an integer port: its numeral, with a minus sign when negative. */
  function PortText(port: int): string
  {
    if port < 0 then "-" + DecimalDigits(-port) else DecimalDigits(port)
  }

  /** JavaScript truthiness of an optional numeric port: present and not zero. */
  predicate PortIsSet(port: Option<int>)
  {
    port.Some? && port.value != 0
  }

  /** The host part of the URL: the ip, followed by `:port` when the port is set. */
  function HostSegment(config: NetworkConfig): string
  {
    if PortIsSet(config.port) then config.ip + ":" + PortText(config.port.value) else config.ip
  }

  /** `rpcUrlFromConfig`: `protocol://host` followed by the C-chain RPC path. */
  function RpcUrlFromConfig(config: NetworkConfig): string
  {
    config.protocol + "://" + HostSegment(config) + RpcPath
  }

  /** Every RPC URL starts with the protocol and `://` and ends with the C-chain RPC path. */
  lemma RpcUrlShape(config: NetworkConfig)
    ensures config.protocol + "://" <= RpcUrlFromConfig(config)
    ensures |RpcUrlFromConfig(config)| >= |config.protocol| + 3 + |config.ip| + |RpcPath|
    ensures RpcUrlFromConfig(config)[|RpcUrlFromConfig(config)| - |RpcPath|..] == RpcPath
  {
    var url := RpcUrlFromConfig(config);
    var head := config.protocol + "://" + HostSegment(config);
    assert url == head + RpcPath;
    assert url[..|config.protocol| + 3] == config.protocol + "://";
    assert url[|head|..] == RpcPath;
  }

  /** An absent port and a zero port are both falsy: the URL has no port segment. */
  lemma RpcUrlWithoutPort(config: NetworkConfig)
    requires config.port == None || config.port == Some(0)
    ensures RpcUrlFromConfig(config) == config.protocol + "://" + config.ip + RpcPath
  {
  }

  /**
   * With a positive port set, the port can be read back from the URL: it is
   * the numeral between the `:` that follows the host and the RPC path.
   */
  lemma RpcUrlPortReadsBack(config: NetworkConfig)
    requires config.port.Some? && 0 < config.port.value
    ensures var url := RpcUrlFromConfig(config);
      var start := |config.protocol| + 3 + |config.ip| + 1;
      && start <= |url| - |RpcPath|
      && url[start - 1] == ':'
      && ParseDecimal(url[start..|url| - |RpcPath|]) == config.port.value
  {
    var digits := DecimalDigits(config.port.value);
    var head := config.protocol + "://" + config.ip + ":";
    assert HostSegment(config) == config.ip + ":" + digits;
    assert RpcUrlFromConfig(config) == head + digits + RpcPath;
    MiddleOf(head, digits, RpcPath);
    DecimalDigitsRoundTrip(config.port.value);
  }

  /** The middle piece of a three-way concatenation, recovered by slicing. */
  lemma MiddleOf(a: string, b: string, c: string)
    ensures |a| <= |a + b + c| - |c|
    ensures (a + b + c)[|a|..|a + b + c| - |c|] == b
    ensures |a| > 0 ==> (a + b + c)[|a| - 1] == a[|a| - 1]
  {
    assert (a + b + c)[|a|..|a| + |b|] == b;
  }

  /** The local hardhat fork of Flare. */
  const Flarefork: NetworkConfig := NetworkConfig("http", "localhost", Some(8545), 31337, "flarefork")

  /** The Coston2 test network. */
  const Costwo: NetworkConfig := NetworkConfig("https", "coston2-api.flare.network", None, 114, "costwo")

  /** The Flare main network. */
  const Flare: NetworkConfig := NetworkConfig("https", "flare-api.flare.network", None, 14, "flare")

  /** `networkInfo[name]`, or nothing for a network the table does not list. */
  function NetworkInfoOf(name: string): (info: Option<NetworkInfo>)
    ensures info.Some? <==> name in {"costwo", "flare", "flarefork"}
    ensures info.Some? ==> info.value.rpc == RpcUrlFromConfig(info.value.config) && info.value.config.hrp == name
  {
    if name == "costwo" then
      Some(NetworkInfo(Costwo, RpcUrlFromConfig(Costwo),
        "0xC67DCE33D7A8efA5FfEB961899C73fe01bCe9273", "0x8D29b61C41CF318d15d031BE2928F79630e068e6"))
    else if name == "flare" then
      Some(NetworkInfo(Flare, RpcUrlFromConfig(Flare),
        "0x1D80c49BbBCd1C0911346656B529DF9E5c2F783d", "0xe3A1b355ca63abCBC9589334B5e609583C7BAa06"))
    else if name == "flarefork" then
      Some(NetworkInfo(Flarefork, RpcUrlFromConfig(Flarefork),
        "0x1D80c49BbBCd1C0911346656B529DF9E5c2F783d", "0xe3A1b355ca63abCBC9589334B5e609583C7BAa06"))
    else None
  }

  /** The port of the local fork renders as its four digits. */
  lemma ForkPortText()
    ensures PortText(8545) == "8545"
  {
    assert DecimalDigits(8) == "8";
    assert DecimalDigits(85) == "8" + "5";
    assert DecimalDigits(854) == "85" + "4";
    assert DecimalDigits(8545) == "854" + "5";
  }

  /** The pieces of the local fork's URL, joined. */
  lemma FlareforkUrlText()
    ensures "http" + "://" + ("localhost" + ":" + "8545") + RpcPath == "http://localhost:8545/ext/bc/C/rpc"
  {
  }

  /** The pieces of the Coston2 URL, joined. */
  lemma CostwoUrlText()
    ensures "https" + "://" + "coston2-api.flare.network" + RpcPath == "https://coston2-api.flare.network/ext/bc/C/rpc"
  {
  }

  /** The pieces of the Flare URL, joined. */
  lemma FlareUrlText()
    ensures "https" + "://" + "flare-api.flare.network" + RpcPath == "https://flare-api.flare.network/ext/bc/C/rpc"
  {
  }

  /** The local fork's RPC URL carries its port. */
  lemma FlareforkRpcUrl()
    ensures NetworkInfoOf("flarefork").value.rpc == "http://localhost:8545/ext/bc/C/rpc"
  {
    ForkPortText();
    assert HostSegment(Flarefork) == "localhost" + ":" + "8545";
    FlareforkUrlText();
  }

  /** The Coston2 RPC URL has no port segment. */
  lemma CostwoRpcUrl()
    ensures NetworkInfoOf("costwo").value.rpc == "https://coston2-api.flare.network/ext/bc/C/rpc"
  {
    RpcUrlWithoutPort(Costwo);
    CostwoUrlText();
  }

  /** The Flare RPC URL has no port segment. */
  lemma FlareRpcUrl()
    ensures NetworkInfoOf("flare").value.rpc == "https://flare-api.flare.network/ext/bc/C/rpc"
  {
    RpcUrlWithoutPort(Flare);
    FlareUrlText();
  }

  /** The fork and the main network share their wrapped-native and exchange contracts. */
  lemma ForkSharesFlareContracts()
    ensures NetworkInfoOf("flarefork").value.wNat == NetworkInfoOf("flare").value.wNat
    ensures NetworkInfoOf("flarefork").value.dex == NetworkInfoOf("flare").value.dex
    ensures NetworkInfoOf("flarefork").value.rpc != NetworkInfoOf("flare").value.rpc
  {
    FlareforkRpcUrl();
    FlareRpcUrl();
    assert "http://localhost:8545/ext/bc/C/rpc"[4] != "https://flare-api.flare.network/ext/bc/C/rpc"[4];
  }
}
