/** The inbox: the list of received messages, the recipient rewrite applied
    when they are fetched, and the replace-by-id update once one is decrypted. */
module Inbox {
  import opened Wrappers
  import Wallet
  import Crypto
  import opened Bytes

  /** A received message as the inbox lists it; the last two fields are unset
      until the message is decrypted. */
  datatype Message = Message(
    id: int,
    sender: string,
    recipient: string,
    timestamp: int,
    cid: string,
    signature: string,
    decryptedContent: Option<string>,
    isVerified: Option<bool>)

  /** The same message with the fields the wallet and the inbox fill in left
      aside: whether two messages are the same one received. */
  predicate SameEnvelope(m: Message, n: Message) {
    m.id == n.id && m.sender == n.sender && m.timestamp == n.timestamp &&
    m.cid == n.cid && m.signature == n.signature
  }

  /** One entry after the message with id `id` was decrypted to `content`:
      the entry with that id gets the content and is marked verified, any other
      entry stays as it was. */
  function MarkOne(m: Message, id: int, content: string): (r: Message)
    ensures m.id == id ==>
      SameEnvelope(r, m) && r.recipient == m.recipient &&
      r.decryptedContent == Some(content) && r.isVerified == Some(true)
    ensures m.id != id ==> r == m
  {
    if m.id == id then m.(decryptedContent := Some(content), isVerified := Some(true)) else m
  }

  /** The list after the message with id `id` was decrypted to `content`:
      every entry is updated on its own, so length and order are kept. */
  function MarkDecrypted(messages: seq<Message>, id: int, content: string): (r: seq<Message>)
    ensures |r| == |messages|
    ensures forall i :: 0 <= i < |r| ==> r[i] == MarkOne(messages[i], id, content)
  {
    if messages == [] then []
    else [MarkOne(messages[0], id, content)] + MarkDecrypted(messages[1..], id, content)
  }

  /** Decrypting the same message again with the same content changes nothing. */
  lemma MarkDecryptedIdempotent(messages: seq<Message>, id: int, content: string)
    ensures MarkDecrypted(MarkDecrypted(messages, id, content), id, content)
         == MarkDecrypted(messages, id, content)
  {
    var once := MarkDecrypted(messages, id, content);
    var twice := MarkDecrypted(once, id, content);
    assert forall i :: 0 <= i < |twice| ==> twice[i] == once[i];
  }

  /** Decrypting one message never touches another: updates for two different
      ids commute. */
  lemma MarkDecryptedCommutes(messages: seq<Message>, id1: int, c1: string, id2: int, c2: string)
    requires id1 != id2
    ensures MarkDecrypted(MarkDecrypted(messages, id1, c1), id2, c2)
         == MarkDecrypted(MarkDecrypted(messages, id2, c2), id1, c1)
  {
    var a := MarkDecrypted(MarkDecrypted(messages, id1, c1), id2, c2);
    var b := MarkDecrypted(MarkDecrypted(messages, id2, c2), id1, c1);
    assert forall i :: 0 <= i < |a| ==> a[i] == b[i];
  }

  /** The fetched list as shown: every message addressed to `account`, all
      other fields kept, length and order kept. */
  function WithRecipient(messages: seq<Message>, account: string): (r: seq<Message>)
    ensures |r| == |messages|
    ensures forall i :: 0 <= i < |r| ==>
      SameEnvelope(r[i], messages[i]) && r[i].recipient == account &&
      r[i].decryptedContent == messages[i].decryptedContent && r[i].isVerified == messages[i].isVerified
  {
    if messages == [] then []
    else [messages[0].(recipient := account)] + WithRecipient(messages[1..], account)
  }

  /** Rewriting the recipient twice is rewriting it once, to the later account. */
  lemma WithRecipientTwice(messages: seq<Message>, first: string, second: string)
    ensures WithRecipient(WithRecipient(messages, first), second) == WithRecipient(messages, second)
  {
    var a := WithRecipient(WithRecipient(messages, first), second);
    var b := WithRecipient(messages, second);
    assert forall i :: 0 <= i < |a| ==> a[i] == b[i];
  }

  /** The inbox's state. */
  class InboxView {
    var messages: seq<Message>
    var isLoading: bool
    var selectedMessage: Option<Message>
    var privateKey: string
    var isDecrypting: bool

    constructor ()
      ensures messages == [] && !isLoading && selectedMessage.None? && privateKey == "" && !isDecrypting
    {
      messages, isLoading, selectedMessage, privateKey, isDecrypting := [], false, None, "", false;
    }

    /** `fetchMessages`: nothing without an account; otherwise the fetched
        messages, each addressed to the account, replace the list, and a failed
        fetch leaves the list as it was. Loading is over either way. */
    method FetchMessages(account: Option<string>, fetched: Result<seq<Message>, string>)
      modifies this
      ensures !Wallet.Present(account) ==> unchanged(this)
      ensures Wallet.Present(account) ==>
        !isLoading &&
        messages == (if fetched.Ok? then WithRecipient(fetched.value, account.value) else old(messages))
      ensures selectedMessage == old(selectedMessage) && privateKey == old(privateKey) &&
        isDecrypting == old(isDecrypting)
    {
      if !Wallet.Present(account) {
        return;
      }
      isLoading := true;
      if fetched.Ok? {
        messages := WithRecipient(fetched.value, account.value);
      }
      isLoading := false;
    }

    /** `handleDecrypt`: nothing without a selected message and a private key;
        otherwise, when decryption yields a text, the selected message (matched
        by id) shows it and is marked verified, and the selection and the key
        field are cleared; when it fails, all of that is kept. Decrypting is
        over either way. */
    method HandleDecrypt(decrypted: Result<string, Crypto.CryptoError>)
      modifies this
      ensures old(selectedMessage).None? || old(privateKey) == "" ==> unchanged(this)
      ensures old(selectedMessage).Some? && old(privateKey) != "" ==>
        !isDecrypting &&
        (decrypted.Ok? ==>
          messages == MarkDecrypted(old(messages), old(selectedMessage).value.id, decrypted.value) &&
          selectedMessage.None? && privateKey == "") &&
        (decrypted.Err? ==>
          messages == old(messages) && selectedMessage == old(selectedMessage) && privateKey == old(privateKey))
      ensures isLoading == old(isLoading)
    {
      if selectedMessage.None? || privateKey == "" {
        return;
      }
      isDecrypting := true;
      if decrypted.Ok? {
        var id := selectedMessage.value.id;
        messages := MarkDecrypted(messages, id, decrypted.value);
        selectedMessage := None;
        privateKey := "";
      }
      isDecrypting := false;
    }
  }

  /** End to end: when the text handed to `handleDecrypt` is what
      `decryptBundle` makes of a bundle sealed for the reader's key pair, every
      listed copy of the selected message shows exactly the text the sender
      encrypted, and is marked verified. */
  lemma InboxShowsSentText(c: Crypto.WebCrypto, text: string, publicKey: string, privateKey: string,
                           aesKey: Crypto.AesKey, iv: Crypto.Iv, oaepSeed: seq<uint8>,
                           messages: seq<Message>, id: int, i: int)
    requires Crypto.Correct(c)
    requires Crypto.ImportPublicKey(c, publicKey).Ok? && Crypto.ImportPrivateKey(c, privateKey).Ok?
    requires c.keysMatch(Crypto.ImportPublicKey(c, publicKey).value, Crypto.ImportPrivateKey(c, privateKey).value)
    requires Crypto.WrapsAesKey(c, Crypto.ImportPublicKey(c, publicKey).value)
    requires 0 <= i < |messages| && messages[i].id == id
    ensures Crypto.CreateEncryptedBundle(c, text, publicKey, aesKey, iv, oaepSeed).Ok?
    ensures var bundle := Crypto.CreateEncryptedBundle(c, text, publicKey, aesKey, iv, oaepSeed).value;
      var decrypted := Crypto.DecryptBundle(c, bundle, privateKey);
      decrypted.Ok? &&
      MarkDecrypted(messages, id, decrypted.value)[i].decryptedContent == Some(text) &&
      MarkDecrypted(messages, id, decrypted.value)[i].isVerified == Some(true)
  {
    Crypto.RoundTrip(c, text, publicKey, privateKey, aesKey, iv, oaepSeed);
  }
}
