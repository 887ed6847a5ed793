/** The Send Message form: the four-phase progress display, the QR-scan rule
    for the recipient address, the send action with its guards and phases, and
    the sent-history list. */
module SendMessage {
  import opened Wrappers
  import opened Bytes
  import Wallet
  import Crypto

  // ---------------------------------------------------------------------------
  // Progress steps

  datatype StepId = Aes | Ipfs | Sign | Send
  datatype StepStatus = Pending | Active | Complete

  /** The order the steps are shown and entered in. */
  const StepOrder: seq<StepId> := [Aes, Ipfs, Sign, Send]

  function StepIndex(s: StepId): (i: nat)
    ensures i < |StepOrder| && StepOrder[i] == s
  {
    match s
    case Aes => 0
    case Ipfs => 1
    case Sign => 2
    case Send => 3
  }

  /** The `status` of each of the four steps, each computed by its own
      expression from `currentStep`, in display order. */
  function StepStatuses(currentStep: Option<StepId>): (r: seq<StepStatus>)
    ensures |r| == |StepOrder|
    ensures currentStep.None? ==> forall i :: 0 <= i < |r| ==> r[i] == Pending
    ensures currentStep.Some? ==> forall i :: 0 <= i < |r| ==>
      r[i] == (if i < StepIndex(currentStep.value) then Complete
               else if i == StepIndex(currentStep.value) then Active
               else Pending)
    ensures r[|r| - 1] != Complete
  {
    var aes := if currentStep == Some(Aes) then Active
               else if currentStep.Some? then Complete else Pending;
    var ipfs := if currentStep == Some(Ipfs) then Active
                else if currentStep == Some(Sign) || currentStep == Some(Send) then Complete else Pending;
    var sign := if currentStep == Some(Sign) then Active
                else if currentStep == Some(Send) then Complete else Pending;
    var send := if currentStep == Some(Send) then Active else Pending;
    [aes, ipfs, sign, send]
  }

  /** While a send is in progress exactly one step is active; otherwise none. */
  lemma ExactlyOneActive(currentStep: Option<StepId>)
    ensures multiset(StepStatuses(currentStep))[Active] == (if currentStep.Some? then 1 else 0)
  {
    var r := StepStatuses(currentStep);
    match currentStep
    case None =>
      assert r == [Pending, Pending, Pending, Pending];
    case Some(Aes) =>
      assert r == [Active, Pending, Pending, Pending];
    case Some(Ipfs) =>
      assert r == [Complete, Active, Pending, Pending];
    case Some(Sign) =>
      assert r == [Complete, Complete, Active, Pending];
    case Some(Send) =>
      assert r == [Complete, Complete, Complete, Active];
  }

  // ---------------------------------------------------------------------------
  // QR scan

  predicate StartsWith(s: string, prefix: string) {
    |prefix| <= |s| && s[..|prefix|] == prefix
  }

  /** `s.split(sep)`: the pieces between separators, at least one. */
  function Split(s: string, sep: char): (r: seq<string>)
    ensures |r| >= 1
    ensures forall i :: 0 <= i < |r| ==> sep !in r[i]
    ensures sep !in s ==> r == [s]
  {
    if s == [] then [""]
    else if s[0] == sep then [""] + Split(s[1..], sep)
    else
      var rest := Split(s[1..], sep);
      assert sep !in s ==> [s[0]] + rest[0] == s;
      [[s[0]] + rest[0]] + rest[1..]
  }

  /** Splitting text that has no separator, followed by a separator or by
      nothing, makes that text the first piece. */
  lemma {:induction false} SplitFirstPiece(a: string, rest: string, sep: char)
    requires sep !in a
    requires rest == [] || rest[0] == sep
    ensures Split(a + rest, sep)[0] == a
  {
    if a == [] {
    } else {
      assert (a + rest)[1..] == a[1..] + rest;
      SplitFirstPiece(a[1..], rest, sep);
    }
  }

  /** Text with no separator, then a separator, then more text: the first
      piece is that text and the rest are the pieces of what follows. */
  lemma {:induction false} SplitAtFirstSeparator(a: string, b: string, sep: char)
    requires sep !in a
    ensures Split(a + [sep] + b, sep) == [a] + Split(b, sep)
  {
    if a == [] {
      assert a + [sep] + b == [sep] + b;
      assert ([sep] + b)[1..] == b;
    } else {
      assert (a + [sep] + b)[1..] == a[1..] + [sep] + b;
      SplitAtFirstSeparator(a[1..], b, sep);
      var rest := Split(a[1..] + [sep] + b, sep);
      assert rest[1..] == Split(b, sep);
      assert [a[0]] + rest[0] == a;
    }
  }

  /** The address a scanned QR code yields, if any: a bare 42-character "0x"
      string, or the text between the first and second ':' of an "ethereum:"
      URI when that text starts with "0x" (its length is not checked). */
  function ScannedAddress(result: string): (r: Option<string>)
    ensures r.Some? ==> StartsWith(r.value, "0x")
    ensures StartsWith(result, "0x") && |result| == 42 ==> r == Some(result)
    ensures StartsWith(result, "0x") && |result| != 42 ==> r.None?
    ensures !StartsWith(result, "0x") && !StartsWith(result, "ethereum:") ==> r.None?
  {
    if result == "" then None
    else if StartsWith(result, "0x") && |result| == 42 then Some(result)
    else if StartsWith(result, "ethereum:") then
      var parts := Split(result, ':');
      // `parts[1]` is undefined, hence falsy, when there is no second piece
      var address := if |parts| >= 2 then parts[1] else "";
      if address != "" && StartsWith(address, "0x") then Some(address) else None
    else None
  }

  /** An "ethereum:" URI gives the text up to the next ':' (or the end),
      accepted exactly when it starts with "0x", whatever its length. */
  lemma ScanEthereumUri(address: string, rest: string)
    requires ':' !in address
    requires rest == [] || rest[0] == ':'
    ensures ScannedAddress("ethereum:" + address + rest)
         == (if StartsWith(address, "0x") then Some(address) else None)
  {
    var result := "ethereum:" + address + rest;
    assert result == "ethereum" + [':'] + (address + rest);
    assert result[..9] == "ethereum:";
    assert result[0] == 'e';
    assert !StartsWith(result, "0x");
    SplitAtFirstSeparator("ethereum", address + rest, ':');
    SplitFirstPiece(address, rest, ':');
  }

  /** A URI whose address is too short is still accepted: the scan rule does
      not check the length of an "ethereum:" address. */
  lemma ScanAcceptsShortUriAddress()
    ensures ScannedAddress("ethereum:0x12") == Some("0x12")
  {
    ScanEthereumUri("0x12", "");
    assert "ethereum:" + "0x12" + "" == "ethereum:0x12";
  }

  // ---------------------------------------------------------------------------
  // Sending

  /** The EIP-712 message the sender signs. */
  datatype SignedPayload = SignedPayload(recipient: string, cid: string, timestamp: int)

  /** `Math.floor(Date.now() / 1000)`: whole seconds of a millisecond clock. */
  function SecondsTimestamp(nowMs: int): (t: int)
    ensures t * 1000 <= nowMs < t * 1000 + 1000
  {
    nowMs / 1000
  }

  /** The IPFS uploader, the EIP-712 signer and the contract as seen from the
      form; each answers with a value or an error message. */
  datatype Collaborators = Collaborators(
    uploadToIpfs: Crypto.EncryptedBundle -> Result<string, string>,
    signTypedData: SignedPayload -> Result<string, string>,
    sendMessage: (string, string, string) -> Result<(), string>)

  /** The randomness `createEncryptedBundle` draws. */
  datatype Entropy = Entropy(aesKey: Crypto.AesKey, iv: Crypto.Iv, oaepSeed: seq<uint8>)

  datatype SendOutcome =
    | NotConnected                              // "Connect wallet first"
    | WrongNetwork                              // "Switch to Polygon Amoy"
    | MissingFields                             // "Fill in all fields"
    | Sent(bundle: Crypto.EncryptedBundle, cid: string, payload: SignedPayload, signature: string)
    | Failed(at: StepId)                        // "Failed", with the step that threw

  /** The steps a send attempt entered, in order: all four for a sent
      message, up to and including the failing one otherwise. */
  function StepsEntered(outcome: SendOutcome): seq<StepId> {
    match outcome
    case Failed(Aes) => [Aes]
    case Failed(_) => [Aes] + DeliverySteps(outcome)
    case Sent(_, _, _, _) => [Aes] + DeliverySteps(outcome)
    case _ => []
  }

  /** The steps entered after encryption succeeded. */
  function DeliverySteps(outcome: SendOutcome): seq<StepId> {
    match outcome
    case Failed(Ipfs) => [Ipfs]
    case Failed(Sign) => [Ipfs, Sign]
    case Failed(Send) => [Ipfs, Sign, Send]
    case Sent(_, _, _, _) => [Ipfs, Sign, Send]
    case _ => []
  }

  /** The steps entered are always a prefix of the display order: all of it
      for a sent message, through the failing step otherwise, none when a
      guard stopped the send. */
  lemma StepsEnteredInOrder(outcome: SendOutcome)
    ensures outcome.Sent? ==> StepsEntered(outcome) == StepOrder
    ensures outcome.Failed? ==> StepsEntered(outcome) == StepOrder[..StepIndex(outcome.at) + 1]
    ensures !outcome.Sent? && !outcome.Failed? ==> StepsEntered(outcome) == []
  {
  }

  /** An event the contract emitted for a sent message, as `queryFilter` gives it. */
  datatype MessageSentEvent = MessageSentEvent(id: nat, sender: string, recipient: string,
                                               timestamp: nat, cid: string)

  /** An entry of the history list. */
  datatype SentMessage = SentMessage(id: string, recipient: string, timestamp: int, cid: string)

  predicate IsDecimalDigit(c: char) {
    '0' <= c <= '9'
  }

  function DecimalDigitValue(c: char): (d: int)
    requires IsDecimalDigit(c)
    ensures 0 <= d < 10
  {
    c as int - '0' as int
  }

  /** The value of a string of decimal digits, most significant first. */
  function DecimalValue(s: string): (v: nat)
    requires forall i :: 0 <= i < |s| ==> IsDecimalDigit(s[i])
  {
    if s == [] then 0 else DecimalValue(s[..|s| - 1]) * 10 + DecimalDigitValue(s[|s| - 1])
  }

  /** `id.toString()` of an unsigned integer: its decimal digits, with no
      leading zero. */
  function DecimalString(n: nat): (s: string)
    ensures |s| >= 1 && (|s| > 1 ==> s[0] != '0')
    ensures forall i :: 0 <= i < |s| ==> IsDecimalDigit(s[i])
    ensures DecimalValue(s) == n
  {
    var last := ('0' as int + n % 10) as char;
    if n < 10 then [last]
    else
      var s := DecimalString(n / 10) + [last];
      assert s[..|s| - 1] == DecimalString(n / 10);
      s
  }

  function ToSentMessage(e: MessageSentEvent): SentMessage {
    SentMessage(DecimalString(e.id), e.recipient, e.timestamp, e.cid)
  }

  /** The history list: one entry per event, newest (last emitted) first. */
  function HistoryFromEvents(events: seq<MessageSentEvent>): (h: seq<SentMessage>)
    ensures |h| == |events|
    ensures forall i :: 0 <= i < |h| ==> h[i] == ToSentMessage(events[|events| - 1 - i])
  {
    if events == [] then []
    else HistoryFromEvents(events[1..]) + [ToSentMessage(events[0])]
  }

  /** What a send reports once the bundle exists: a sent outcome carries that
      bundle, the CID IPFS gave it, the signed payload with the recipient, the
      CID and the send time in seconds, and a signature the contract accepted;
      a failed one names the first of upload, signing and submission that
      reported an error. */
  predicate Delivers(outcome: SendOutcome, bundle: Crypto.EncryptedBundle, recipient: string,
                     collaborators: Collaborators, nowMs: int)
  {
    match outcome
    case Sent(b, cid, payload, signature) =>
      b == bundle &&
      collaborators.uploadToIpfs(bundle) == Ok(cid) &&
      payload == SignedPayload(recipient, cid, SecondsTimestamp(nowMs)) &&
      collaborators.signTypedData(payload) == Ok(signature) &&
      collaborators.sendMessage(recipient, cid, signature).Ok?
    case Failed(at) =>
      var cid := collaborators.uploadToIpfs(bundle);
      if cid.Err? then at == Ipfs
      else
        var signature := collaborators.signTypedData(SignedPayload(recipient, cid.value, SecondsTimestamp(nowMs)));
        if signature.Err? then at == Sign
        else at == Send && collaborators.sendMessage(recipient, cid.value, signature.value).Err?
    case _ => false
  }

  /** What a send attempt past the guards reports, given what encrypting the
      message for the recipient's key gave: failure at the first step when that
      failed, and otherwise what delivering the bundle reports. */
  predicate Reports(outcome: SendOutcome, encrypted: Result<Crypto.EncryptedBundle, Crypto.CryptoError>,
                    recipient: string, collaborators: Collaborators, nowMs: int)
  {
    if encrypted.Err? then outcome == Failed(Aes)
    else Delivers(outcome, encrypted.value, recipient, collaborators, nowMs)
  }

  /** The form's state. */
  class SendForm {
    var recipient: string
    var recipientPublicKey: string
    var message: string
    var isSending: bool
    var currentStep: Option<StepId>
    var isScannerOpen: bool
    var sentHistory: seq<SentMessage>
    var isLoadingHistory: bool
    /** every step the progress display has entered, in order */
    ghost var stepTrace: seq<StepId>

    constructor ()
      ensures recipient == "" && recipientPublicKey == "" && message == ""
      ensures !isSending && currentStep.None? && !isScannerOpen
      ensures sentHistory == [] && !isLoadingHistory && stepTrace == []
    {
      recipient, recipientPublicKey, message := "", "", "";
      isSending, currentStep, isScannerOpen := false, None, false;
      sentHistory, isLoadingHistory := [], false;
      stepTrace := [];
    }

    /** `handleScan`: an accepted address becomes the recipient and closes the
        scanner; anything else changes nothing. */
    method HandleScan(result: string)
      modifies this
      ensures ScannedAddress(result).Some? ==> recipient == ScannedAddress(result).value && !isScannerOpen
      ensures ScannedAddress(result).None? ==> unchanged(this)
      ensures recipientPublicKey == old(recipientPublicKey) && message == old(message) &&
        isSending == old(isSending) && currentStep == old(currentStep) &&
        sentHistory == old(sentHistory) && isLoadingHistory == old(isLoadingHistory) &&
        stepTrace == old(stepTrace)
    {
      var address := ScannedAddress(result);
      if address.Some? {
        recipient := address.value;
        isScannerOpen := false;
      }
    }

    /** `handleSend`: three guards in order (wallet, network, fields), each
        leaving the form as it was; past them, the four phases run (see
        `Transmit`). */
    method HandleSend(wallet: Wallet.WalletContext, c: Crypto.WebCrypto, entropy: Entropy,
                      collaborators: Collaborators, nowMs: int)
      returns (outcome: SendOutcome)
      modifies this
      ensures outcome == NotConnected <==>
        !Wallet.Present(wallet.account) || wallet.signer.None? || wallet.contract.None?
      ensures outcome == WrongNetwork <==>
        Wallet.Present(wallet.account) && wallet.signer.Some? && wallet.contract.Some? &&
        !Wallet.IsCorrectNetwork(wallet.chainId)
      ensures outcome == MissingFields <==>
        Wallet.Present(wallet.account) && wallet.signer.Some? && wallet.contract.Some? &&
        Wallet.IsCorrectNetwork(wallet.chainId) &&
        (old(recipient) == "" || old(recipientPublicKey) == "" || old(message) == "")
      ensures outcome.NotConnected? || outcome.WrongNetwork? || outcome.MissingFields? ==> unchanged(this)
      ensures outcome.Sent? || outcome.Failed? ==>
        Reports(outcome, Crypto.CreateEncryptedBundle(c, old(message), recipientPublicKey, entropy.aesKey,
                                                      entropy.iv, entropy.oaepSeed),
                recipient, collaborators, nowMs) &&
        !isSending && currentStep.None? &&
        stepTrace == old(stepTrace) + StepsEntered(outcome) &&
        message == (if outcome.Sent? then "" else old(message))
      ensures recipient == old(recipient) && recipientPublicKey == old(recipientPublicKey) &&
        isScannerOpen == old(isScannerOpen) && sentHistory == old(sentHistory) &&
        isLoadingHistory == old(isLoadingHistory)
    {
      if !Wallet.Present(wallet.account) || wallet.signer.None? || wallet.contract.None? {
        return NotConnected;
      }
      if !Wallet.IsCorrectNetwork(wallet.chainId) {
        return WrongNetwork;
      }
      if recipient == "" || recipientPublicKey == "" || message == "" {
        return MissingFields;
      }
      outcome := Transmit(c, entropy, collaborators, nowMs);
    }

    /** The four phases of a send: encrypt, upload, sign, submit. The first
        error ends the attempt; either way the form ends not sending with no
        current step, every entered step recorded in order, and the message
        cleared only when the transaction went through. */
    method Transmit(c: Crypto.WebCrypto, entropy: Entropy, collaborators: Collaborators, nowMs: int)
      returns (outcome: SendOutcome)
      modifies this
      ensures Reports(outcome, Crypto.CreateEncryptedBundle(c, old(message), old(recipientPublicKey), entropy.aesKey,
                                                            entropy.iv, entropy.oaepSeed),
                      old(recipient), collaborators, nowMs)
      ensures !isSending && currentStep.None?
      ensures stepTrace == old(stepTrace) + StepsEntered(outcome)
      ensures message == (if outcome.Sent? then "" else old(message))
      ensures recipient == old(recipient) && recipientPublicKey == old(recipientPublicKey) &&
        isScannerOpen == old(isScannerOpen) && sentHistory == old(sentHistory) &&
        isLoadingHistory == old(isLoadingHistory)
    {
      var bundle := Encrypt(c, entropy);
      outcome := Conclude(bundle, collaborators, nowMs);
    }

    /** The rest of a send once encryption has run: deliver the bundle when
        there is one, then stop sending and clear the current step. */
    method Conclude(bundle: Result<Crypto.EncryptedBundle, Crypto.CryptoError>,
                    collaborators: Collaborators, nowMs: int)
      returns (outcome: SendOutcome)
      modifies this
      requires stepTrace != [] && stepTrace[|stepTrace| - 1] == Aes
      ensures Reports(outcome, bundle, old(recipient), collaborators, nowMs)
      ensures !isSending && currentStep.None?
      ensures stepTrace == old(stepTrace)[..|old(stepTrace)| - 1] + StepsEntered(outcome)
      ensures message == (if outcome.Sent? then "" else old(message))
      ensures recipient == old(recipient) && recipientPublicKey == old(recipientPublicKey) &&
        isScannerOpen == old(isScannerOpen) && sentHistory == old(sentHistory) &&
        isLoadingHistory == old(isLoadingHistory)
    {
      if bundle.Err? {
        outcome := Failed(Aes);
      } else {
        outcome := Deliver(bundle.value, collaborators, nowMs);
      }
      isSending := false;
      currentStep := None;
    }

    /** Start sending: enter the first step and encrypt the message for the
        recipient's key. */
    method Encrypt(c: Crypto.WebCrypto, entropy: Entropy)
      returns (bundle: Result<Crypto.EncryptedBundle, Crypto.CryptoError>)
      modifies this
      ensures bundle == Crypto.CreateEncryptedBundle(c, old(message), old(recipientPublicKey),
                                                     entropy.aesKey, entropy.iv, entropy.oaepSeed)
      ensures isSending && currentStep == Some(Aes) && stepTrace == old(stepTrace) + [Aes]
      ensures recipient == old(recipient) && recipientPublicKey == old(recipientPublicKey) &&
        message == old(message) && isScannerOpen == old(isScannerOpen) &&
        sentHistory == old(sentHistory) && isLoadingHistory == old(isLoadingHistory)
    {
      var text, publicKey := message, recipientPublicKey;
      isSending := true;
      currentStep := Some(Aes);
      stepTrace := stepTrace + [Aes];
      bundle := Crypto.CreateEncryptedBundle(c, text, publicKey, entropy.aesKey, entropy.iv, entropy.oaepSeed);
    }

    /** Upload, sign and submit an encrypted bundle, entering each step in
        turn; the message is cleared once the transaction went through. */
    method Deliver(bundle: Crypto.EncryptedBundle, collaborators: Collaborators, nowMs: int)
      returns (outcome: SendOutcome)
      modifies this
      ensures Delivers(outcome, bundle, recipient, collaborators, nowMs)
      ensures stepTrace == old(stepTrace) + DeliverySteps(outcome)
      ensures currentStep == Some(if outcome.Failed? then outcome.at else Send)
      ensures message == (if outcome.Sent? then "" else old(message))
      ensures recipient == old(recipient) && recipientPublicKey == old(recipientPublicKey) &&
        isSending == old(isSending) && isScannerOpen == old(isScannerOpen) &&
        sentHistory == old(sentHistory) && isLoadingHistory == old(isLoadingHistory)
    {
      currentStep := Some(Ipfs);
      stepTrace := stepTrace + [Ipfs];
      var cid := collaborators.uploadToIpfs(bundle);
      if cid.Err? {
        return Failed(Ipfs);
      }
      currentStep := Some(Sign);
      stepTrace := stepTrace + [Sign];
      var timestamp := SecondsTimestamp(nowMs);
      var payload := SignedPayload(recipient, cid.value, timestamp);
      var signature := collaborators.signTypedData(payload);
      if signature.Err? {
        return Failed(Sign);
      }
      currentStep := Some(Send);
      stepTrace := stepTrace + [Send];
      var tx := collaborators.sendMessage(recipient, cid.value, signature.value);
      if tx.Err? {
        return Failed(Send);
      }
      message := "";
      return Sent(bundle, cid.value, payload, signature.value);
    }

    /** `fetchHistory`: with a contract and an account, replace the history
        with the queried events, newest first; a failed query leaves it. */
    method FetchHistory(wallet: Wallet.WalletContext, events: Result<seq<MessageSentEvent>, string>)
      modifies this
      ensures wallet.contract.None? || !Wallet.Present(wallet.account) ==> unchanged(this)
      ensures wallet.contract.Some? && Wallet.Present(wallet.account) ==>
        !isLoadingHistory &&
        sentHistory == (if events.Ok? then HistoryFromEvents(events.value) else old(sentHistory))
      ensures recipient == old(recipient) && recipientPublicKey == old(recipientPublicKey) &&
        message == old(message) && isSending == old(isSending) && currentStep == old(currentStep) &&
        isScannerOpen == old(isScannerOpen) && stepTrace == old(stepTrace)
    {
      if wallet.contract.None? || !Wallet.Present(wallet.account) {
        return;
      }
      isLoadingHistory := true;
      if events.Ok? {
        var historyData := HistoryFromEvents(events.value);
        sentHistory := historyData;
      }
      isLoadingHistory := false;
    }
  }

  /** A send whose message is read back: with correct primitives and the
      recipient's matching key pair, the bundle handed to IPFS decrypts to the
      message the form held. */
  lemma SentBundleDecrypts(c: Crypto.WebCrypto, message: string, recipientPublicKey: string,
                           recipientPrivateKey: string, entropy: Entropy, bundle: Crypto.EncryptedBundle)
    requires Crypto.Correct(c)
    requires Crypto.ImportPublicKey(c, recipientPublicKey).Ok? && Crypto.ImportPrivateKey(c, recipientPrivateKey).Ok?
    requires c.keysMatch(Crypto.ImportPublicKey(c, recipientPublicKey).value,
                         Crypto.ImportPrivateKey(c, recipientPrivateKey).value)
    requires Crypto.WrapsAesKey(c, Crypto.ImportPublicKey(c, recipientPublicKey).value)
    requires Crypto.CreateEncryptedBundle(c, message, recipientPublicKey,
                                          entropy.aesKey, entropy.iv, entropy.oaepSeed) == Ok(bundle)
    ensures Crypto.DecryptBundle(c, bundle, recipientPrivateKey) == Ok(message)
  {
    Crypto.RoundTrip(c, message, recipientPublicKey, recipientPrivateKey,
                     entropy.aesKey, entropy.iv, entropy.oaepSeed);
  }
}
