/** The wallet context: the connected account, the ethers provider, signer and
    contract handles, the chain id, and the transitions that the connect and
    disconnect actions and the injected wallet's `accountsChanged` and
    `chainChanged` events make on them. */
module Wallet {
  import opened Wrappers

  /** Chain id of the Polygon Amoy test network. */
  const PolygonAmoyChainId: nat := 80002

  /** A JavaScript number as a chain id holds it: an integer or NaN. */
  datatype JsNumber = Num(n: int) | NaN

  /** JavaScript truthiness of a `string | null` field: null and "" are false. */
  predicate Present(s: Option<string>) {
    s.Some? && s.value != ""
  }

  /** `chainId === POLYGON_AMOY_CHAIN_ID`. */
  function IsCorrectNetwork(chainId: Option<JsNumber>): (b: bool)
    ensures b ==> chainId.Some? && chainId.value.Num?
    ensures b <==> chainId.Some? && chainId.value == Num(PolygonAmoyChainId)
  {
    match chainId
    case None => false
    case Some(NaN) => false
    case Some(Num(n)) => n == PolygonAmoyChainId
  }

  // ---------------------------------------------------------------------------
  // Hexadecimal chain ids: `"0x" + n.toString(16)` and `parseInt(s, 16)`.

  function HexDigit(d: int): (c: char)
    requires 0 <= d < 16
    ensures IsHexDigit(c) && HexDigitValue(c) == d
  {
    if d < 10 then ('0' as int + d) as char else ('a' as int + (d - 10)) as char
  }

  predicate IsHexDigit(c: char) {
    ('0' <= c <= '9') || ('a' <= c <= 'f') || ('A' <= c <= 'F')
  }

  function HexDigitValue(c: char): (d: int)
    requires IsHexDigit(c)
    ensures 0 <= d < 16
  {
    if '0' <= c <= '9' then c as int - '0' as int
    else if 'a' <= c <= 'f' then c as int - 'a' as int + 10
    else c as int - 'A' as int + 10
  }

  /** The value of a string of hexadecimal digits, most significant first. */
  function HexValue(s: string): (v: nat)
    requires forall i :: 0 <= i < |s| ==> IsHexDigit(s[i])
  {
    if s == [] then 0 else HexValue(s[..|s| - 1]) * 16 + HexDigitValue(s[|s| - 1])
  }

  /** `n.toString(16)` for a non-negative integer: lower-case digits, no
      leading zero. */
  function ToHexString(n: nat): (s: string)
    ensures |s| >= 1 && (|s| > 1 ==> s[0] != '0')
    ensures forall i :: 0 <= i < |s| ==> IsHexDigit(s[i]) && !('A' <= s[i] <= 'F')
    ensures HexValue(s) == n
  {
    if n < 16 then [HexDigit(n)]
    else
      var s := ToHexString(n / 16) + [HexDigit(n % 16)];
      assert s[..|s| - 1] == ToHexString(n / 16);
      s
  }

  /** The chain id as the wallet RPC methods expect it. */
  function FormatChainId(n: nat): (s: string)
    ensures |s| >= 3 && s[..2] == "0x" && s[2..] == ToHexString(n)
  {
    "0x" + ToHexString(n)
  }

  /** White space and line terminators that `parseInt` skips (sections 12.2
      and 12.3 of ECMA-262: TAB, VT, FF, SP, NBSP, ZWNBSP, category Zs, LF, CR,
      LS, PS). */
  predicate IsJsWhitespace(c: char) {
    c == '\t' || c == '\n' || c == '\U{000B}' || c == '\U{000C}' || c == '\r' || c == ' '
    || c == '\U{00A0}' || c == '\U{1680}' || ('\U{2000}' <= c <= '\U{200A}')
    || c == '\U{2028}' || c == '\U{2029}' || c == '\U{202F}' || c == '\U{205F}'
    || c == '\U{3000}' || c == '\U{FEFF}'
  }

  /** `s` without its leading white space: exactly the white space before the
      first other character is dropped. */
  function TrimStart(s: string): (t: string)
    ensures |t| <= |s| && t == s[|s| - |t|..]
    ensures |t| > 0 ==> !IsJsWhitespace(t[0])
    ensures forall i :: 0 <= i < |s| - |t| ==> IsJsWhitespace(s[i])
  {
    if s != [] && IsJsWhitespace(s[0]) then TrimStart(s[1..]) else s
  }

  /** The longest prefix of `s` made of hexadecimal digits. */
  function HexPrefix(s: string): (p: string)
    ensures |p| <= |s| && p == s[..|p|]
    ensures forall i :: 0 <= i < |p| ==> IsHexDigit(p[i])
    ensures |p| < |s| ==> !IsHexDigit(s[|p|])
  {
    if s != [] && IsHexDigit(s[0]) then
      var p := [s[0]] + HexPrefix(s[1..]);
      assert p[1..] == HexPrefix(s[1..]);
      p
    else []
  }

  /** `parseInt(s, 16)` (section 19.2.5 of ECMA-262): skip leading white space,
      take a sign, drop a "0x" or "0X" prefix, read the longest run of hex
      digits; no digits at all is NaN. */
  function ParseIntHex(s: string): (r: JsNumber)
    ensures TrimStart(s) == "" ==> r.NaN?
    ensures (|TrimStart(s)| > 0 && !IsHexDigit(TrimStart(s)[0]) &&
             TrimStart(s)[0] != '+' && TrimStart(s)[0] != '-') ==> r.NaN?
    ensures r.Num? && (TrimStart(s) == "" || TrimStart(s)[0] != '-') ==> r.n >= 0
  {
    var t := TrimStart(s);
    var negative := |t| > 0 && t[0] == '-';
    var u := if |t| > 0 && (t[0] == '-' || t[0] == '+') then t[1..] else t;
    var v := if |u| >= 2 && u[0] == '0' && (u[1] == 'x' || u[1] == 'X') then u[2..] else u;
    var digits := HexPrefix(v);
    var value: int := if digits == [] then 0 else HexValue(digits);
    if digits == [] then NaN
    else if negative then Num(-value)
    else Num(value)
  }

  lemma {:induction false} HexPrefixOfDigits(s: string)
    requires forall i :: 0 <= i < |s| ==> IsHexDigit(s[i])
    ensures HexPrefix(s) == s
  {
    if s != [] {
      HexPrefixOfDigits(s[1..]);
    }
  }

  /** `parseInt` with radix 16 reads back every chain id formatted as
      `"0x" + n.toString(16)`. */
  lemma ParseFormatChainId(n: nat)
    ensures ParseIntHex(FormatChainId(n)) == Num(n)
  {
    var h := ToHexString(n);
    var s := FormatChainId(n);
    assert s == "0x" + h;
    assert s[0] == '0' && s[1] == 'x';
    assert !IsJsWhitespace(s[0]);
    assert TrimStart(s) == s;
    assert s[2..] == h;
    HexPrefixOfDigits(h);
    assert HexPrefix(s[2..]) == h;
  }

  // ---------------------------------------------------------------------------
  // The context's state.

  /** An ethers `JsonRpcSigner` for the wallet's selected address. */
  datatype Signer = Signer(address: string)
  /** An ethers `BrowserProvider` over the injected wallet. */
  datatype Provider = BrowserProvider
  /** The ChainChain contract bound to a signer. */
  datatype Contract = ChainChainContract(runner: Signer)

  /** An error from a wallet RPC request, with its EIP-1193 code if it has one. */
  datatype RpcError = RpcError(code: Option<int>)

  /** What the injected wallet (`window.ethereum`) answers to the requests that
      `connect` makes. */
  datatype InjectedWallet = InjectedWallet(
    requestAccounts: Result<seq<string>, RpcError>,
    getSigner: Result<Signer, RpcError>,
    getNetwork: Result<int, RpcError>)

  datatype ConnectOutcome =
    | WalletMissing                        // "MetaMask Required"
    | Connected(wrongNetwork: bool)        // "Wallet Connected", and "Wrong Network" when so
    | ConnectFailed                        // "Connection Failed"

  class WalletContext {
    var account: Option<string>
    var provider: Option<Provider>
    var signer: Option<Signer>
    var contract: Option<Contract>
    var chainId: Option<JsNumber>
    var isConnecting: bool

    /** True when every connection field is null. */
    predicate IsDisconnected()
      reads this
    {
      account.None? && provider.None? && signer.None? && contract.None? && chainId.None?
    }

    constructor ()
      ensures IsDisconnected() && !isConnecting
    {
      account, provider, signer, contract, chainId := None, None, None, None, None;
      isConnecting := false;
    }

    /** `connect`: ask for accounts, build the provider, signer and contract,
        read the network, and store them all. */
    method Connect(ethereum: Option<InjectedWallet>) returns (outcome: ConnectOutcome)
      modifies this
      ensures ethereum.None? ==> outcome == WalletMissing && unchanged(this)
      ensures ethereum.Some? ==> !isConnecting
      ensures ethereum.Some? ==> var w := ethereum.value;
        if w.requestAccounts.Err? || w.getSigner.Err? || w.getNetwork.Err? then
          outcome == ConnectFailed &&
          account == old(account) && provider == old(provider) && signer == old(signer) &&
          contract == old(contract) && chainId == old(chainId)
        else
          var accounts := w.requestAccounts.value;
          // `accounts[0]` is undefined for an empty list; the toast that then
          // reads `accounts[0].slice` throws after the fields are stored.
          account == (if |accounts| > 0 then Some(accounts[0]) else None) &&
          provider == Some(BrowserProvider) && signer == Some(w.getSigner.value) &&
          contract == Some(ChainChainContract(w.getSigner.value)) &&
          chainId == Some(Num(w.getNetwork.value)) &&
          outcome == (if |accounts| > 0 then Connected(w.getNetwork.value != PolygonAmoyChainId)
                      else ConnectFailed)
    {
      if ethereum.None? {
        return WalletMissing;
      }
      var w := ethereum.value;
      isConnecting := true;
      if w.requestAccounts.Err? || w.getSigner.Err? || w.getNetwork.Err? {
        outcome := ConnectFailed;
      } else {
        var accounts := w.requestAccounts.value;
        var browserProvider := BrowserProvider;
        var userSigner := w.getSigner.value;
        var network := w.getNetwork.value;
        var chainContract := ChainChainContract(userSigner);
        account := if |accounts| > 0 then Some(accounts[0]) else None;
        provider := Some(browserProvider);
        signer := Some(userSigner);
        contract := Some(chainContract);
        chainId := Some(Num(network));
        if |accounts| > 0 {
          outcome := Connected(network != PolygonAmoyChainId);
        } else {
          outcome := ConnectFailed;
        }
      }
      isConnecting := false;
    }

    /** `disconnect`: every connection field back to null. */
    method Disconnect()
      modifies this
      ensures IsDisconnected() && isConnecting == old(isConnecting)
    {
      account := None;
      provider := None;
      signer := None;
      contract := None;
      chainId := None;
    }

    /** The `accountsChanged` listener. */
    method HandleAccountsChanged(accounts: seq<string>)
      modifies this
      ensures |accounts| == 0 ==> IsDisconnected() && isConnecting == old(isConnecting)
      ensures |accounts| > 0 ==> account == Some(accounts[0])
      ensures |accounts| > 0 ==> (provider == old(provider) && signer == old(signer) &&
                                  contract == old(contract) && chainId == old(chainId) &&
                                  isConnecting == old(isConnecting))
      ensures |accounts| > 0 && old(account) == Some(accounts[0]) ==> unchanged(this)
    {
      if |accounts| == 0 {
        Disconnect();
      } else if Some(accounts[0]) != account {
        account := Some(accounts[0]);
      }
    }

    /** The `chainChanged` listener: the new id arrives as a hex string. */
    method HandleChainChanged(newChainId: string)
      modifies this
      ensures chainId == Some(ParseIntHex(newChainId))
      ensures account == old(account) && provider == old(provider) && signer == old(signer) &&
        contract == old(contract) && isConnecting == old(isConnecting)
    {
      var parsed := ParseIntHex(newChainId);
      chainId := Some(parsed);
    }
  }

  /** A switch to Amoy reported by the wallet in the form `switchNetwork` asks
      for puts the context on the correct network. */
  lemma ChainChangedToAmoy()
    ensures IsCorrectNetwork(Some(ParseIntHex(FormatChainId(PolygonAmoyChainId))))
  {
    ParseFormatChainId(PolygonAmoyChainId);
  }

  // ---------------------------------------------------------------------------
  // switchNetwork

  /** The wallet RPC requests `switchNetwork` makes. */
  datatype WalletRequest =
    | SwitchEthereumChain(chainId: string)
    | AddEthereumChain(chainId: string, chainName: string, currencyName: string,
                       currencySymbol: string, decimals: nat, blockExplorerUrl: string)

  datatype SwitchOutcome = SwitchOutcome(requests: seq<WalletRequest>, rejection: Option<RpcError>)

  /** `switchNetwork`: with a wallet present, ask to switch to Amoy; only when
      the wallet does not know the chain (code 4902) ask to add it. Every other
      switch error is swallowed; an error from the add request is not caught. */
  function SwitchNetwork(hasWallet: bool, switchError: Option<RpcError>, addError: Option<RpcError>)
    : (r: SwitchOutcome)
    ensures !hasWallet ==> r.requests == [] && r.rejection == None
    ensures hasWallet ==> (1 <= |r.requests| <= 2 &&
                           r.requests[0] == SwitchEthereumChain(FormatChainId(PolygonAmoyChainId)))
    ensures |r.requests| == 2 <==> hasWallet && switchError.Some? && switchError.value.code == Some(4902)
    ensures |r.requests| == 2 ==> (r.requests[1].AddEthereumChain? &&
                                   r.requests[1].chainId == FormatChainId(PolygonAmoyChainId))
    ensures r.rejection.Some? <==> |r.requests| == 2 && addError.Some?
    ensures r.rejection.Some? ==> r.rejection == addError
  {
    if !hasWallet then SwitchOutcome([], None)
    else
      var hexId := FormatChainId(PolygonAmoyChainId);
      var switchRequest := SwitchEthereumChain(hexId);
      match switchError
      case None => SwitchOutcome([switchRequest], None)
      case Some(e) =>
        if e.code == Some(4902) then
          var addRequest := AddEthereumChain(hexId, "Polygon Amoy Testnet", "POL", "POL", 18,
                                             "https://amoy.polygonscan.com");
          SwitchOutcome([switchRequest, addRequest], addError)
        else SwitchOutcome([switchRequest], None)
  }
}
