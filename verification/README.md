# ChainChain messaging core in Dafny

ChainChain is a browser dApp for end-to-end encrypted messages on the Polygon
Amoy test network. A sender does three things:

- encrypts a message under a fresh AES-256-GCM key;
- wraps that key with the recipient's RSA-OAEP-SHA256 public key;
- stores the resulting base64 "bundle" on IPFS, signs `{recipient, cid, timestamp}` with EIP-712 and submits it to the ChainChain contract.

The recipient lists their messages in the inbox and decrypts one with their private key.

This project models that core and proves properties about it:

- **`Bytes`, `Base64`**: the browser's `btoa`/`atob` that the crypto helpers rely on. Encoding follows section 4 of RFC 4648, decoding follows the forgiving-base64 decode of the WHATWG Infra standard, and binary strings have one character per byte.
- **`Crypto`** (`src/lib/crypto.ts`):
  - the four base64/byte helpers, written as loops over sequences and arrays;
  - key import;
  - `createEncryptedBundle` and `decryptBundle`.

  The Web Crypto primitives are fields of a `WebCrypto` record. What the proofs assume about them is stated by the predicates `AesGcmCorrect`, `RsaOaepCorrect` and `Utf8RoundTrips`, and those appear only as lemma preconditions.
- **`Wallet`** (`src/context/WalletContext.tsx`): the context state as a class, with these operations:
  - `connect`, `disconnect`;
  - the `accountsChanged` and `chainChanged` listeners;
  - `isCorrectNetwork`;
  - the request sequence of `switchNetwork`;
  - the `"0x" + n.toString(16)` / `parseInt(s, 16)` pair that carries chain ids.
- **`Header`** (`src/components/Header.tsx`): `formatAddress`, `getNetworkName` and when the Switch Network button shows. `Inbox.tsx` line 112 defines the same `formatAddress`, so `Header.FormatAddress` models both.
- **`SendMessage`** (`src/components/SendMessage.tsx`):
  - the four progress-step statuses;
  - the QR-scan rule;
  - `handleSend`: three guards, then the phases encrypt, upload, sign and submit;
  - the seconds timestamp;
  - the sent-history list, built newest first.
- **`Inbox`** (`src/components/Inbox.tsx`):
  - the recipient rewrite in `fetchMessages`;
  - the replace-by-id update in `handleDecrypt`;
  - an end-to-end lemma: a bundle sent to a reader shows the sender's text once decrypted.

Randomness, the clock and I/O are parameters:

- Randomness: the AES key, the IV and the OAEP seed (`SendMessage.Entropy`).
- The clock: `nowMs`.
- I/O:
  - the wallet's answers (`Wallet.InjectedWallet`, plus the switch and add errors);
  - the IPFS upload, the EIP-712 signer and the contract call (`SendMessage.Collaborators`);
  - the events a history query returns, the messages a fetch returns, and the text a decryption produced.

`POLYGON_AMOY_CHAIN_ID` comes from `src/lib/constants.ts`, which is not part of this model. It is taken to be 80002, the chain id of Polygon Amoy.

The code does not check a bundle's `algorithm` and `version` when it decrypts, so the model does not either (`Crypto.DecryptIgnoresMetadata`).

## Model

| member | source | states |
|---|---|---|
| Bytes.BinaryString | chainchain-secure-chat-main/src/lib/crypto.ts:132-135 | one character per byte, with the byte as its code; the result is a binary string of the same length |
| Bytes.CharCodes | chainchain-secure-chat-main/src/lib/crypto.ts:142-145 | `charCodeAt` of each character of a binary string, one byte each, same length |
| Bytes.CharCodesOfBinaryString | chainchain-secure-chat-main/src/lib/crypto.ts:132-145 | reading back the codes of the binary string of some bytes gives those bytes |
| Bytes.BinaryStringOfCharCodes | chainchain-secure-chat-main/src/lib/crypto.ts:132-145 | a binary string is determined by its character codes |
| Base64.DecodeSextet | chainchain-secure-chat-main/src/lib/crypto.ts:141 | an alphabet character's value is below 64 and encodes back to that character |
| Base64.SextetRoundTrip | chainchain-secure-chat-main/src/lib/crypto.ts:136-141 | every 6-bit value survives encoding to a character and decoding back |
| Base64.EncodeUnpadded | chainchain-secure-chat-main/src/lib/crypto.ts:136 | alphabet characters only, and exactly ceil(4n/3) of them for n bytes |
| Base64.Padding | chainchain-secure-chat-main/src/lib/crypto.ts:136 | only '=' characters, exactly enough to bring the output to a multiple of four |
| Base64.Encode | chainchain-secure-chat-main/src/lib/crypto.ts:136 | the padded encoding has 4*ceil(n/3) characters, each from the alphabet or '=' |
| Base64.DecodeUnpadded | chainchain-secure-chat-main/src/lib/crypto.ts:141 | m unpadded characters decode to floor(3m/4) bytes |
| Base64.StripWhitespace | chainchain-secure-chat-main/src/lib/crypto.ts:141 | `atob`'s first step: no whitespace is left, and every other character is kept exactly as often as it occurs |
| Base64.StripWhitespaceAppend | chainchain-secure-chat-main/src/lib/crypto.ts:141 | whitespace removal works piece by piece, so what is left keeps its order |
| Base64.StripPadding | chainchain-secure-chat-main/src/lib/crypto.ts:141 | keeps a prefix and removes only trailing '=', at most two; a last character that is not '=' stops it, and so does a second-to-last one after one '=' is removed |
| Base64.ForgivingDecode | chainchain-secure-chat-main/src/lib/crypto.ts:141 | with whitespace removed, a length one more than a multiple of four is refused; a success yields at most three bytes per four characters |
| Base64.ForgivingDecodeRejects | chainchain-secure-chat-main/src/lib/crypto.ts:141 | any character other than whitespace, '=' and the alphabet makes `atob` fail, wherever it stands |
| Base64.BtoA | chainchain-secure-chat-main/src/lib/crypto.ts:136 | `btoa` succeeds exactly on binary strings, and then gives the encoding of their codes |
| Base64.AtoB | chainchain-secure-chat-main/src/lib/crypto.ts:141 | `atob` succeeds exactly when the forgiving decode does, and gives a binary string of the decoded bytes |
| Base64.GroupRoundTrip | chainchain-secure-chat-main/src/lib/crypto.ts:136-141 | one to three bytes survive encoding to a group of characters and decoding back |
| Base64.UnpaddedRoundTrip | chainchain-secure-chat-main/src/lib/crypto.ts:136-141 | an unpadded encoding never ends in a one-character group, and it decodes back to the bytes |
| Base64.StripPaddingOfEncode | chainchain-secure-chat-main/src/lib/crypto.ts:136-141 | removing the padding of an encoding leaves exactly its alphabet characters |
| Base64.EncodeHasNoWhitespace | chainchain-secure-chat-main/src/lib/crypto.ts:136-141 | removing whitespace leaves an encoding unchanged |
| Base64.DecodeEncode | chainchain-secure-chat-main/src/lib/crypto.ts:136-141 | the forgiving decode undoes the RFC 4648 encode for every byte sequence |
| Base64.ForgivingDecodeUnpadded | chainchain-secure-chat-main/src/lib/crypto.ts:141 | padding is optional: the encoding without its '=' characters decodes back to the bytes |
| Base64.AtoBBtoA | chainchain-secure-chat-main/src/lib/crypto.ts:136-141 | `atob(btoa(x)) == x` for every binary string x |
| Crypto.Base64ToBytes | chainchain-secure-chat-main/src/lib/crypto.ts:140-147 | the only failure of the base64-to-bytes helpers is `atob`'s InvalidCharacterError |
| Crypto.ArrayBufferToBase64 | chainchain-secure-chat-main/src/lib/crypto.ts:130-137 | the loop's binary string, passed to `btoa`, yields exactly the RFC 4648 encoding of the buffer |
| Crypto.Base64ToArrayBuffer | chainchain-secure-chat-main/src/lib/crypto.ts:140-147 | the filled buffer holds the character codes of `atob`'s output; invalid text throws |
| Crypto.Uint8ArrayToBase64 | chainchain-secure-chat-main/src/lib/crypto.ts:150-156 | gives the RFC 4648 encoding of the array's contents |
| Crypto.Base64ToUint8Array | chainchain-secure-chat-main/src/lib/crypto.ts:159-166 | a fresh array holding the decoded bytes exactly when `atob` accepts the text; InvalidCharacterError otherwise |
| Crypto.Base64RoundTrip | chainchain-secure-chat-main/src/lib/crypto.ts:130-147 | decoding `arrayBufferToBase64` of some bytes gives back those bytes |
| Crypto.ImportPublicKey | chainchain-secure-chat-main/src/lib/crypto.ts:90-99 | a key results exactly when the base64 text decodes and the SPKI import accepts the bytes, and then it is the imported key |
| Crypto.ImportPrivateKey | chainchain-secure-chat-main/src/lib/crypto.ts:102-111 | a key results exactly when the base64 text decodes and the PKCS #8 import accepts the bytes, and then it is the imported key |
| Crypto.CreateEncryptedBundle | chainchain-secure-chat-main/src/lib/crypto.ts:177-194 | a bundle results exactly when the recipient key imports and the RSA-OAEP wrap of the AES key succeeds; it carries the fixed algorithm and version strings; a key-import error is passed on unchanged |
| Crypto.DecryptBundle | chainchain-secure-chat-main/src/lib/crypto.ts:196-208 | a private-key import error is passed on; any field that is not valid base64 makes decryption fail |
| Crypto.BundleFieldsDecode | chainchain-secure-chat-main/src/lib/crypto.ts:182-190 | each bundle field decodes to what was put in it: the wrapped AES key, the AES-GCM ciphertext of the UTF-8 message, and the 12-byte IV |
| Crypto.CreateSucceeds | chainchain-secure-chat-main/src/lib/crypto.ts:184-185 | with correct RSA-OAEP, an importable key long enough for OAEP padding of 32 bytes always yields a bundle |
| Crypto.CreateFailsOnShortKey | chainchain-secure-chat-main/src/lib/crypto.ts:185 | a key too short for OAEP padding of the AES key makes the bundle fail with OperationError |
| Crypto.RoundTrip | chainchain-secure-chat-main/src/lib/crypto.ts:177-208 | with correct primitives and a matching key pair, `decryptBundle(createEncryptedBundle(m, pub), priv) == m` |
| Crypto.DecryptIgnoresMetadata | chainchain-secure-chat-main/src/lib/crypto.ts:196-208 | decryption does not depend on `algorithm` or `version` |
| Crypto.DecryptFailuresPropagate | chainchain-secure-chat-main/src/lib/crypto.ts:202-207 | a failed unwrap, or a failed authenticated decryption, rejects with OperationError |
| Wallet.IsCorrectNetwork | chainchain-secure-chat-main/src/context/WalletContext.tsx:40 | true exactly when the chain id is the number 80002; null and NaN are never correct |
| Wallet.ToHexString | chainchain-secure-chat-main/src/context/WalletContext.tsx:48 | `n.toString(16)`: lower-case hex digits, no leading zero, and their value is n |
| Wallet.FormatChainId | chainchain-secure-chat-main/src/context/WalletContext.tsx:48 | "0x" followed by the hexadecimal digits of the chain id, at least one |
| Wallet.TrimStart | chainchain-secure-chat-main/src/context/WalletContext.tsx:151 | `parseInt` skips exactly the leading white space: everything dropped is white space, and what remains is a suffix that does not start with it |
| Wallet.HexPrefix | chainchain-secure-chat-main/src/context/WalletContext.tsx:151 | the longest prefix of hex digits that `parseInt` reads: a prefix made of hex digits, and the next character is not one |
| Wallet.ParseIntHex | chainchain-secure-chat-main/src/context/WalletContext.tsx:151 | `parseInt(s, 16)`: NaN for blank text and for text whose first non-space character is neither a hex digit nor a sign; never negative without a '-' |
| Wallet.ParseFormatChainId | chainchain-secure-chat-main/src/context/WalletContext.tsx:150-152 | `parseInt("0x" + n.toString(16), 16) == n` for every non-negative n |
| Wallet.WalletContext.constructor | chainchain-secure-chat-main/src/context/WalletContext.tsx:33-38 | starts disconnected and not connecting |
| Wallet.WalletContext.Connect | chainchain-secure-chat-main/src/context/WalletContext.tsx:73-123 | no wallet: nothing changes. Any failed request: state kept, ConnectFailed. Otherwise the account, provider, signer, contract and chain id are stored, with a wrong-network flag when the id is not Amoy. An empty account list stores no account and reports failure. Connecting ends false |
| Wallet.WalletContext.Disconnect | chainchain-secure-chat-main/src/context/WalletContext.tsx:125-135 | all five connection fields become null |
| Wallet.WalletContext.HandleAccountsChanged | chainchain-secure-chat-main/src/context/WalletContext.tsx:141-148 | an empty list disconnects; otherwise the first account becomes current and nothing else changes; the same account changes nothing |
| Wallet.WalletContext.HandleChainChanged | chainchain-secure-chat-main/src/context/WalletContext.tsx:150-152 | the chain id becomes `parseInt(newChainId, 16)`; the other fields are kept |
| Wallet.ChainChangedToAmoy | chainchain-secure-chat-main/src/context/WalletContext.tsx:150-152 | a `chainChanged` carrying the id that `switchNetwork` requested makes the network correct |
| Wallet.SwitchNetwork | chainchain-secure-chat-main/src/context/WalletContext.tsx:42-71 | no wallet: no request. Otherwise a switch to "0x13882". An add request follows exactly when the switch failed with code 4902. Only an add error escapes; every other switch error is swallowed |
| Header.Slice | chainchain-secure-chat-main/src/components/Header.tsx:10 | `String.prototype.slice`: an in-range pair of positions gives that substring, a negative start up to the end counts from the end, and an empty range gives "" |
| Header.FormatAddress | chainchain-secure-chat-main/src/components/Header.tsx:9-11 | the first min(6, n) characters, "...", the last min(4, n), for every length n, which fixes the result; 13 characters for ten or more; a string of at most four characters appears twice |
| Header.FormatEthereumAddress | chainchain-secure-chat-main/src/components/Header.tsx:9-11 | a 42-character address shows as 13 characters starting "0x", namely `a[..6] + "..." + a[38..]` |
| Header.GetNetworkName | chainchain-secure-chat-main/src/components/Header.tsx:13-18 | "Amoy" exactly on the correct network; "Mainnet" for 1; "Polygon" for 137; "Unknown" for null, NaN and every other id |
| Header.ShowsSwitchNetwork | chainchain-secure-chat-main/src/components/Header.tsx:42-61 | the button shows only with an account, and then exactly when the badge does not read "Amoy" |
| Header.SwitchedToAmoy | chainchain-secure-chat-main/src/components/Header.tsx:53-61 | after the wallet reports the requested chain, the badge reads "Amoy" and the button is gone |
| SendMessage.StepStatuses | chainchain-secure-chat-main/src/components/SendMessage.tsx:43-48 | four statuses in display order. All pending with no current step. Otherwise complete before the current step, active at it, pending after it. The last step is never complete |
| SendMessage.ExactlyOneActive | chainchain-secure-chat-main/src/components/SendMessage.tsx:43-48 | exactly one step is active while a step is current, and none otherwise |
| SendMessage.Split | chainchain-secure-chat-main/src/components/SendMessage.tsx:69 | `split` gives at least one piece, no piece contains the separator, and text without a separator is one piece, itself |
| SendMessage.SplitAtFirstSeparator | chainchain-secure-chat-main/src/components/SendMessage.tsx:69 | text with no separator, a separator, then more text: the first piece is that text, the rest is the split of what follows |
| SendMessage.ScannedAddress | chainchain-secure-chat-main/src/components/SendMessage.tsx:62-77 | an accepted scan always starts with "0x"; a bare "0x" string is accepted exactly when it has 42 characters, and then as it is; anything starting with neither "0x" nor "ethereum:" is refused |
| SendMessage.ScanEthereumUri | chainchain-secure-chat-main/src/components/SendMessage.tsx:68-74 | an "ethereum:" URI yields the text up to the next ':', accepted exactly when it starts with "0x" |
| SendMessage.ScanAcceptsShortUriAddress | chainchain-secure-chat-main/src/components/SendMessage.tsx:68-70 | the URI rule does not check length: "ethereum:0x12" is accepted as "0x12" |
| SendMessage.SecondsTimestamp | chainchain-secure-chat-main/src/components/SendMessage.tsx:130 | `floor(nowMs / 1000)`: t*1000 <= nowMs < t*1000 + 1000 |
| SendMessage.StepsEnteredInOrder | chainchain-secure-chat-main/src/components/SendMessage.tsx:119-139 | the steps a send enters are a prefix of the display order: all four for a sent message, through the failing step for a failed one, none when a guard stops it |
| SendMessage.DecimalString | chainchain-secure-chat-main/src/components/SendMessage.tsx:90 | `toString()` of a message id: decimal digits whose value is the id, with no leading zero |
| SendMessage.HistoryFromEvents | chainchain-secure-chat-main/src/components/SendMessage.tsx:89-94 | one entry per event, mapped field by field, in reverse order (newest first) |
| SendMessage.SendForm.constructor | chainchain-secure-chat-main/src/components/SendMessage.tsx:32-41 | empty fields, not sending, no current step, scanner closed, empty history |
| SendMessage.SendForm.HandleScan | chainchain-secure-chat-main/src/components/SendMessage.tsx:62-77 | an accepted address becomes the recipient and closes the scanner; otherwise nothing changes |
| SendMessage.SendForm.HandleSend | chainchain-secure-chat-main/src/components/SendMessage.tsx:105-151 | Each guard (wallet, network, fields) fires exactly when its condition holds, in that order, and leaves the form unchanged. Past them, the outcome is what encryption and delivery report. The form ends not sending with no step, and the message is cleared only after a successful transaction |
| SendMessage.SendForm.Transmit | chainchain-secure-chat-main/src/components/SendMessage.tsx:119-150 | The outcome is failure at the encryption step when `createEncryptedBundle` rejects, and otherwise what delivery reports. The steps entered are recorded in order, and the `finally` block resets sending and the current step |
| SendMessage.SendForm.Encrypt | chainchain-secure-chat-main/src/components/SendMessage.tsx:119-124 | sending starts, the "aes" step is entered, and the bundle is `createEncryptedBundle(message, recipientPublicKey)` |
| SendMessage.SendForm.Conclude | chainchain-secure-chat-main/src/components/SendMessage.tsx:143-150 | a failed encryption reports failure at the first step; otherwise delivery runs; either way sending stops and no step is current |
| SendMessage.SendForm.Deliver | chainchain-secure-chat-main/src/components/SendMessage.tsx:126-142 | Upload, sign and submit in order. The first error ends the send at its step. The signed payload is (recipient, cid, floor(now/1000)). On success the message is cleared and the bundle, cid, payload and signature are reported |
| SendMessage.SendForm.FetchHistory | chainchain-secure-chat-main/src/components/SendMessage.tsx:79-103 | without a contract or an account nothing changes; otherwise the history becomes the events newest first, a failed query keeps it, and loading ends |
| SendMessage.SentBundleDecrypts | chainchain-secure-chat-main/src/components/SendMessage.tsx:124-127 | the bundle handed to IPFS decrypts, with the recipient's private key, to the message the form held |
| Inbox.MarkOne | chainchain-secure-chat-main/src/components/Inbox.tsx:93-96 | the message with the id gets the content and is marked verified, and its envelope is kept; any other message is unchanged |
| Inbox.MarkDecrypted | chainchain-secure-chat-main/src/components/Inbox.tsx:92-98 | the `map` keeps length and order and updates each entry on its own |
| Inbox.MarkDecryptedIdempotent | chainchain-secure-chat-main/src/components/Inbox.tsx:92-98 | decrypting the same message again with the same content changes nothing |
| Inbox.MarkDecryptedCommutes | chainchain-secure-chat-main/src/components/Inbox.tsx:92-98 | updates for two different ids commute: decrypting one message never touches another |
| Inbox.WithRecipient | chainchain-secure-chat-main/src/components/Inbox.tsx:57 | every fetched message is addressed to the account, with all other fields, the length and the order kept |
| Inbox.WithRecipientTwice | chainchain-secure-chat-main/src/components/Inbox.tsx:57 | rewriting the recipient twice is rewriting it once, to the later account |
| Inbox.InboxView.constructor | chainchain-secure-chat-main/src/components/Inbox.tsx:44-48 | no messages, not loading, no selection, empty key, not decrypting |
| Inbox.InboxView.FetchMessages | chainchain-secure-chat-main/src/components/Inbox.tsx:50-64 | without an account nothing changes; otherwise the list becomes the fetched messages addressed to the account, a failed fetch keeps it, and loading ends |
| Inbox.InboxView.HandleDecrypt | chainchain-secure-chat-main/src/components/Inbox.tsx:72-110 | Without a selection or a key nothing changes. A decrypted text marks the selected message (by id) and clears the selection and the key. A failure keeps all three. Decrypting ends false |
| Inbox.InboxShowsSentText | chainchain-secure-chat-main/src/components/Inbox.tsx:85-98 | when the text comes from `decryptBundle` of a bundle sealed for the reader, the selected message shows exactly the sender's text, marked verified |

## Left out

- AES-GCM, RSA-OAEP, SHA-256, SPKI/PKCS #8 parsing and UTF-8 are not implemented. They are abstract functions, and the lemmas assume only the correctness predicates stated in `Crypto`.
- `generateAESKey`, `exportAESKey`, `importAESKey`, `encryptAES`/`decryptAES` and `encryptWithPublicKey`/`decryptWithPrivateKey` are folded into `CreateEncryptedBundle`/`DecryptBundle`. The model fixes only the one `importAESKey` check that matters, the raw key length.
- Key-pair generation and export (`crypto.ts` lines 63-87 and `KeyGenerator.tsx`) are not part of this model.
- Randomness (`generateKey`, `getRandomValues`, the OAEP seed) is a parameter, and so is the clock (`Date.now()`).
- Crypto.CreateEncryptedBundle: the value model keeps the order in which failures are detected, but not the fact that the message is encrypted before the recipient key is imported. No observable result depends on it.
- The IPFS upload (`ipfs.ts`), EIP-712 signing (`signTypedData` with `EIP712_DOMAIN`/`EIP712_TYPES`), `contract.sendMessage`/`tx.wait()` and `queryFilter` are collaborators passed in as functions or results. Their internals, and the constants file, are not part of this model.
- Toasts, `console.error`, the 100 ms, 800 ms and 1000 ms `setTimeout` delays, rendering, the clipboard paste helper and React's batching of state updates are left out. Each handler is modelled as one atomic step on the component's state.
- The `useEffect` hooks (listener registration and removal, the inbox auto-fetch on account or network change) are not modelled. The listeners themselves are modelled as `HandleAccountsChanged`/`HandleChainChanged`.
- `Inbox.InboxView.HandleDecrypt`: the decrypted text is a parameter. The source uses a fixed demonstration string, and its production path (`decryptBundle` of the bundle fetched from IPFS) is commented out. `Inbox.InboxShowsSentText` states what that production path gives. The signature check (`verifySignature`) is not implemented in the source, and the message is marked verified unconditionally, as the source does.
- `Inbox.InboxView.FetchMessages`: the fetched list is a parameter. The source maps a fixed list of two mock messages with fractional timestamps; message timestamps are integers here.
- Chain ids are unbounded integers. JavaScript numbers lose precision above 2^53, and `Number(network.chainId)` of a larger bigint is not modelled.
- String lengths and `slice` count Unicode code points, while JavaScript counts UTF-16 code units. They agree on the ASCII text that addresses, hex ids and base64 consist of.
- `Wallet.SwitchNetwork`: the add-chain request omits `rpcUrls` (`POLYGON_AMOY_RPC` lives in the constants file, which is not part of this model).
- `Wallet.ParseIntHex`: `parseInt`'s result above 2^53 is taken exactly, not rounded.
- `Wallet.WalletContext.Connect`: the toast that reads `accounts[0].slice` after the fields are stored is modelled only by its effect: an empty account list ends in ConnectFailed with the fields already stored.
- `Crypto.DecryptBundle` does not check `algorithm` or `version`, because the code does not.
