/** The header's display helpers: the network badge's name, the shortened
    address, and when the Switch Network button shows. */
module Header {
  import opened Wrappers
  import opened Wallet

  /** `String.prototype.slice(start, end)`: negative positions count from the
      end, positions are clamped to the string, and an empty range gives "". */
  function Slice(s: string, start: int, end: int): (r: string)
    ensures |r| <= |s|
    ensures 0 <= start <= end <= |s| ==> r == s[start..end]
    ensures 0 < -start <= |s| && end == |s| ==> r == s[|s| + start..]
    ensures 0 <= end <= start ==> r == ""
  {
    var from := if start < 0 then (if |s| + start < 0 then 0 else |s| + start)
                else (if start > |s| then |s| else start);
    var to := if end < 0 then (if |s| + end < 0 then 0 else |s| + end)
              else (if end > |s| then |s| else end);
    if from >= to then "" else s[from..to]
  }

  /** `formatAddress`: the first six characters, "...", the last four. */
  function FormatAddress(address: string): (r: string)
    ensures |r| == (if |address| < 6 then |address| else 6) + 3 + (if |address| < 4 then |address| else 4)
    ensures |address| >= 10 ==> |r| == 13
    ensures var k := if |address| < 6 then |address| else 6;
      r[..k] == address[..k] && r[k..k + 3] == "..."
    ensures var j := if |address| < 4 then |address| else 4;
      r[|r| - j..] == address[|address| - j..]
    ensures |address| <= 4 ==> r == address + "..." + address
  {
    Slice(address, 0, 6) + "..." + Slice(address, -4, |address|)
  }

  /** A 42-character Ethereum address is shown as "0x" and four more hex
      characters, "...", and its last four characters. */
  lemma FormatEthereumAddress(address: string)
    requires |address| == 42 && address[..2] == "0x"
    ensures |FormatAddress(address)| == 13
    ensures FormatAddress(address)[..2] == "0x"
    ensures FormatAddress(address) == address[..6] + "..." + address[38..]
  {
    var r := FormatAddress(address);
    assert r[..2] == r[..6][..2];
  }

  /** `getNetworkName`: Amoy is checked first, then the two Ethereum and
      Polygon main networks; null, NaN and every other id are "Unknown". */
  function GetNetworkName(id: Option<JsNumber>): (name: string)
    ensures name == "Amoy" <==> IsCorrectNetwork(id)
    ensures id == Some(Num(1)) ==> name == "Mainnet"
    ensures id == Some(Num(137)) ==> name == "Polygon"
    ensures id.None? || id.value.NaN? ==> name == "Unknown"
    ensures (id.Some? && id.value.Num? && id.value.n != PolygonAmoyChainId &&
             id.value.n != 1 && id.value.n != 137) ==> name == "Unknown"
  {
    if id == Some(Num(PolygonAmoyChainId)) then "Amoy"
    else if id == Some(Num(1)) then "Mainnet"
    else if id == Some(Num(137)) then "Polygon"
    else "Unknown"
  }

  /** Whether the header shows the Switch Network button: only with an account,
      and then exactly when the network is wrong. */
  function ShowsSwitchNetwork(account: Option<string>, chainId: Option<JsNumber>): (shown: bool)
    ensures !Present(account) ==> !shown
    ensures Present(account) ==> (shown <==> GetNetworkName(chainId) != "Amoy")
  {
    Present(account) && !IsCorrectNetwork(chainId)
  }

  /** After the wallet reports the switch to Amoy, the badge reads "Amoy" and
      the Switch Network button is gone. */
  lemma SwitchedToAmoy(account: Option<string>)
    ensures GetNetworkName(Some(ParseIntHex(FormatChainId(PolygonAmoyChainId)))) == "Amoy"
    ensures !ShowsSwitchNetwork(account, Some(ParseIntHex(FormatChainId(PolygonAmoyChainId))))
  {
    ChainChangedToAmoy();
  }
}
