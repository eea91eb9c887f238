# pirate-vote-mobile: wallet session, secure-messaging provider and crypto helpers

A Dafny model of three parts of the Pirate Vote mobile app, with proofs about them.

- **Crypto helpers** (`crypto.dfy`, module `Crypto`). `parseMaybeHex` turns a user-typed private key into its canonical
  `0x` form. The other helpers are thin wrappers around X25519 key agreement (tweetnacl), HKDF-SHA-256 (noble) and
  AES-GCM (WebCrypto).
- **JavaScript string operations** (`js_string.dfy`, module `JsString`). `String.prototype.trim` uses the ECMAScript
  WhiteSpace and LineTerminator set. `split` is modelled for a one-character separator.
- **Messaging provider** (`messaging.dfy`, module `Messaging`). It keeps an in-memory contact list and message log.
  `sendMessage` seals a plaintext for a contact under a fresh ephemeral key and pins the result. The record is
  appended only when every step succeeds.
- **Wallet provider** (`wallet.dfy`, module `Wallet`). It holds the `WalletState` (identity, connection kind,
  WalletConnect topic) and the keychain slot for a local private key. It models creating a wallet, importing one,
  connecting over WalletConnect, disconnecting, and the `getSigner` / `getBalance` guards.
- `wrappers.dfy` (module `Wrappers`) holds `Option`, `Result` and the error values: a thrown `Error(message)`, or a
  `TypeError`.

How the model is built:

- **Library calls are parameters.** The libraries are not modelled. A datatype of function-valued fields stands for
  their calls: `Crypto.Primitives` for the crypto calls, `Wallet.WalletSdk` for the ethers calls, and
  `Messaging.Pinner` for the pinning service. So every property below holds whatever those libraries compute.
  Randomness is a parameter too: the 32-byte ephemeral secret, the 12-byte nonce and the mnemonic entropy.
  So is the outcome of each remote or keychain call: WalletConnect initialisation, approval and disconnect, and
  the keychain write, read and reset.
- **State changes are pure transitions.** Each state-changing operation of the two React providers is a method of
  a class whose fields are the provider's state. Each method is proved equal to a pure transition function of the
  old state: `Messaging.Step`, `Wallet.AfterPersist`, `Wallet.AfterConnect` and `Wallet.AfterDisconnect`. The
  properties are then proved about those functions. Two of them are preserved invariants: the wallet session is
  always in one of its three shapes, and a local session always has a key in the keychain. The message and contact
  logs are append-only.

What the code does where the messaging protocol needs more:

- A receiver can only rebuild the shared secret if it has the sender's ephemeral public key. The message record
  has no field for that key. `Messaging.SendDiscardsEphemeralPublicKey` shows that nothing about that key reaches
  the outcome of a send. `Messaging.RecipientKeyOpensSend` shows that a recipient who had that key could decrypt.
- A pinning failure fails the whole send, although the ciphertext already exists. The send does not report
  partial success.
- `disconnect` stops when the remote disconnect or the keychain reset rejects, and then leaves the state as it was.
  The state is cleared only when both succeed.

## Model

| member | source | states |
|---|---|---|
| JsString.TrimStart | pirate-vote-mobile/src/utils/crypto.ts:6 | the result is a suffix of the input; everything removed is white space; the result does not start with white space |
| JsString.TrimEnd | pirate-vote-mobile/src/utils/crypto.ts:6 | the result is a prefix of the input; everything removed is white space; the result does not end with white space |
| JsString.Trim | pirate-vote-mobile/src/utils/crypto.ts:6 | `trim` returns a string that neither starts nor ends with white space |
| JsString.TrimStartSkips | pirate-vote-mobile/src/utils/crypto.ts:6 | a white-space prefix makes no difference to trimming the start |
| JsString.TrimEndSkips | pirate-vote-mobile/src/utils/crypto.ts:6 | a white-space suffix makes no difference to trimming the end |
| JsString.TrimDecomposes | pirate-vote-mobile/src/utils/crypto.ts:6 | `trim` returns the slice between a white-space prefix and a white-space suffix of its input |
| JsString.TrimCanonical | pirate-vote-mobile/src/utils/crypto.ts:6 | a string with no white space at either end, padded with white space on both sides, trims back to itself |
| JsString.TrimIgnoresPadding | pirate-vote-mobile/src/context/WalletContext.tsx:93 | white space added on either side never changes what `trim` returns |
| JsString.TrimKeeps | pirate-vote-mobile/src/utils/crypto.ts:6 | a string with no white space is its own trim |
| JsString.Split | pirate-vote-mobile/src/context/WalletContext.tsx:120 | `split` returns at least one field, no field contains the separator, and the fields joined with the separator give back the input |
| JsString.SplitPrefix | pirate-vote-mobile/src/context/WalletContext.tsx:120 | a leading run with no separator in it becomes the head of the first field |
| JsString.SplitJoin | pirate-vote-mobile/src/context/WalletContext.tsx:120 | `split` inverts `join` for fields free of the separator |
| Crypto.ParseMaybeHex | pirate-vote-mobile/src/utils/crypto.ts:5-10 | succeeds exactly when the trimmed input is `0x` followed by 64 hex digits, or is 64 hex digits alone; it then returns the `0x` form of those 64 digits; otherwise it throws "Invalid private key format" |
| Crypto.ParseKeepsPrefixedKey | pirate-vote-mobile/src/utils/crypto.ts:7 | a `0x`-prefixed 64-digit key with any white space around it comes back exactly as the key |
| Crypto.ParsePrefixesBareKey | pirate-vote-mobile/src/utils/crypto.ts:8 | 64 bare hex digits with any white space around them come back with `0x` prepended |
| Crypto.ParseIgnoresPadding | pirate-vote-mobile/src/utils/crypto.ts:6 | white space around any input never changes the outcome, success or failure |
| Crypto.ParseIdempotent | pirate-vote-mobile/src/utils/crypto.ts:5-10 | parsing an accepted key's output again accepts it unchanged |
| Crypto.ParseRejectsDigitCount | pirate-vote-mobile/src/utils/crypto.ts:8-9 | bare hex digits of any count other than 64 are rejected, padded or not |
| Crypto.ParseRejectsPrefixedDigitCount | pirate-vote-mobile/src/utils/crypto.ts:7-9 | `0x` and hex digits of any count other than 64 are rejected, padded or not |
| Crypto.ParseRejectsUpperCasePrefix | pirate-vote-mobile/src/utils/crypto.ts:7-9 | an upper-case `0X` prefix is rejected even before 64 valid digits |
| Crypto.ParseRejectsNonHexDigit | pirate-vote-mobile/src/utils/crypto.ts:8-9 | one non-hex, non-blank character anywhere among 64 bare digits is rejected |
| Crypto.ParseRejectsPrefixedNonHexDigit | pirate-vote-mobile/src/utils/crypto.ts:7-9 | one non-hex, non-blank character anywhere among the 64 digits after `0x` is rejected |
| Crypto.ParseRejectsBlank | pirate-vote-mobile/src/utils/crypto.ts:6-9 | an empty or all-white-space input is rejected |
| Crypto.GenerateEphemeralKeyPair | pirate-vote-mobile/src/utils/crypto.ts:14-18 | the secret key is the 32 random bytes drawn, and the public key is derived from exactly that secret |
| Crypto.DeriveSharedSecret | pirate-vote-mobile/src/utils/crypto.ts:20-23 | the library is given the peer's public key first and our secret key second; this order is what `SharedSecretAgrees` relies on |
| Crypto.HkdfDeriveKey | pirate-vote-mobile/src/utils/crypto.ts:25-28 | succeeds exactly when HKDF-SHA-256 and the AES-GCM key import both succeed; HKDF runs with a 32-byte all-zero salt, the UTF-8 bytes of the label as info, and 32 bytes of output |
| Crypto.EncryptMessage | pirate-vote-mobile/src/utils/crypto.ts:30-34 | succeeds exactly when AES-GCM encryption does; the nonce returned is the 12 random bytes drawn and is the IV the ciphertext was sealed under |
| Crypto.DecryptMessage | pirate-vote-mobile/src/utils/crypto.ts:36-39 | AES-GCM decryption with the given nonce as IV; no length check on the nonce |
| Crypto.DecryptOpensEncrypt | pirate-vote-mobile/src/utils/crypto.ts:30-39 | over a correct authenticated cipher, `decryptMessage` applied to what `encryptMessage` returned gives back the plaintext |
| Crypto.SharedSecretAgrees | pirate-vote-mobile/src/utils/crypto.ts:14-23 | under X25519 agreement on 32-byte keys, for a 32-byte static secret, the ephemeral secret with the static public key gives the same shared secret as the static secret with the ephemeral public key |
| Messaging.SendOutcome | pirate-vote-mobile/src/context/MessagingContext.tsx:36-46 | a successful send's record has sender `me`, the contact's address, the 12-byte nonce drawn, and a ciphertext of the UTF-8 plaintext. It is sealed under the key derived from the ephemeral secret and the contact's key with the label `pirate-vote-messaging`, and carries the pointer the pinning service returned for those same four fields. Failed key derivation, encryption or pinning each fail the send |
| Messaging.SendDiscardsEphemeralPublicKey | pirate-vote-mobile/src/context/MessagingContext.tsx:38-43 | the outcome of a send does not depend on how the ephemeral public key is computed, so the record carries nothing of it |
| Messaging.RecipientKeyOpensSend | pirate-vote-mobile/src/context/MessagingContext.tsx:36-46 | given X25519 agreement on 32-byte keys and a correct cipher, the contact's 32-byte static secret together with the ephemeral public key derives a key that opens a sent record to the plaintext's UTF-8 bytes |
| Messaging.RunAppends | pirate-vote-mobile/src/context/MessagingContext.tsx:29-46 | over any sequence of calls, the contacts grow by exactly the added contacts and the messages by exactly the successful sends' records, each in call order and never reordered or removed |
| Messaging.MessagingProvider.constructor | pirate-vote-mobile/src/context/MessagingContext.tsx:29-30 | both lists start empty |
| Messaging.MessagingProvider.AddContact | pirate-vote-mobile/src/context/MessagingContext.tsx:32-34 | the contact is appended, with no duplicate check, and the messages are unchanged |
| Messaging.MessagingProvider.SendMessage | pirate-vote-mobile/src/context/MessagingContext.tsx:36-46 | returns `SendOutcome`; the record is appended only on success; contacts are unchanged |
| Messaging.MessagingProvider.ReceiveMessage | pirate-vote-mobile/src/context/MessagingContext.tsx:48-52 | returns the fixed placeholder text whatever the message |
| Wallet.EntropyLength | pirate-vote-mobile/src/context/WalletContext.tsx:86 | `strength / 8` bytes of entropy: 16 for 128 bits, 32 for 256 bits |
| Wallet.AccountAddress | pirate-vote-mobile/src/context/WalletContext.tsx:118-120 | `split(':')[2]` is defined exactly when there are at least three fields, and then contains no `:` |
| Wallet.AccountAddressOfFields | pirate-vote-mobile/src/context/WalletContext.tsx:120 | for an id joined from three or more `:`-free fields, the address is the third field |
| Wallet.AccountAddressOfShortId | pirate-vote-mobile/src/context/WalletContext.tsx:120 | an id of one or two fields yields an undefined address, which the code stores as it is |
| Wallet.AccountAddressOfCaip10 | pirate-vote-mobile/src/context/WalletContext.tsx:119-120 | a CAIP-10 id `namespace:reference:address` yields its address |
| Wallet.KeyFromEntropy | pirate-vote-mobile/src/context/WalletContext.tsx:86-89 | the key is account 0's private key of the mnemonic made from the entropy; a failing mnemonic fails it |
| Wallet.KeyFromPhrase | pirate-vote-mobile/src/context/WalletContext.tsx:93-96 | the key is account 0's private key of the mnemonic the trimmed phrase spells; a rejected phrase fails it |
| Wallet.KeyFromPhraseIgnoresPadding | pirate-vote-mobile/src/context/WalletContext.tsx:93 | white space around a phrase never changes the key imported |
| Wallet.GetSigner | pirate-vote-mobile/src/context/WalletContext.tsx:132-141 | no signer exactly when the session is not local, or the keychain read resolves and the slot is empty. Otherwise a signer over the stored key and its address. For a local session it throws exactly when the keychain read rejects (with that error) or ethers rejects the stored key |
| Wallet.ConsistentLocalSessionHasSigner | pirate-vote-mobile/src/context/WalletContext.tsx:133-135 | under the provider's invariant, a local session never finds the keychain slot empty |
| Wallet.GetBalance | pirate-vote-mobile/src/context/WalletContext.tsx:143-147 | nothing without an identity; otherwise exactly what the RPC provider reports for the identity's address, and its failure |
| Wallet.RemoteTopic | pirate-vote-mobile/src/context/WalletContext.tsx:125-127 | a remote disconnect is sent exactly for a `walletconnect` session with a client and a non-empty topic, and for that topic |
| Wallet.AfterPersist | pirate-vote-mobile/src/context/WalletContext.tsx:74-83 | a failed key or keychain write changes nothing. After the write the keychain holds the key, even if ethers then rejects it. Success exactly when ethers accepts the key; the state is then a local identity on chain 1 for its address with no topic, and `getSigner` yields a signer over that key. The session invariant is preserved |
| Wallet.AfterConnect | pirate-vote-mobile/src/context/WalletContext.tsx:104-122 | throws "WalletConnect not initialized" without a client. Success exactly when approved with at least one account; the state is then a WalletConnect identity on chain 1 with the first account's address and the session topic. Failure changes nothing, the keychain is never touched, and the invariant is preserved |
| Wallet.AfterDisconnect | pirate-vote-mobile/src/context/WalletContext.tsx:124-130 | sends the remote disconnect exactly as `RemoteTopic` says. Success exactly when that call (if sent) and the keychain reset both succeed, leaving the empty state and an empty keychain. A failure leaves the session as it was. The invariant is preserved |
| Wallet.WalletProvider.constructor | pirate-vote-mobile/src/context/WalletContext.tsx:49-51 | starts from the empty state `{}`, no WalletConnect client, and whatever the keychain holds |
| Wallet.WalletProvider.InitWalletConnect | pirate-vote-mobile/src/context/WalletContext.tsx:53-67 | a client exists afterwards exactly when one existed or a project id is configured and initialisation resolves |
| Wallet.WalletProvider.PersistLocalKey | pirate-vote-mobile/src/context/WalletContext.tsx:74-83 | the new session and result are `AfterPersist` of the old session for the given key; the invariant is kept |
| Wallet.WalletProvider.CreateWallet | pirate-vote-mobile/src/context/WalletContext.tsx:85-90 | `AfterPersist` for the key made from `strength / 8` bytes of entropy; the invariant is kept |
| Wallet.WalletProvider.ImportFromMnemonic | pirate-vote-mobile/src/context/WalletContext.tsx:92-97 | `AfterPersist` for the key of the trimmed phrase; the invariant is kept |
| Wallet.WalletProvider.ImportFromPrivateKey | pirate-vote-mobile/src/context/WalletContext.tsx:99-102 | `AfterPersist` for `parseMaybeHex` of the input; a rejected string throws "Invalid private key format" and changes neither the state nor the keychain |
| Wallet.WalletProvider.ConnectMetaMask | pirate-vote-mobile/src/context/WalletContext.tsx:104-122 | the new session and result are `AfterConnect` of the old session; the invariant is kept |
| Wallet.WalletProvider.Disconnect | pirate-vote-mobile/src/context/WalletContext.tsx:124-130 | the topic sent, the new session and the result are `AfterDisconnect` of the old session; the invariant is kept |

## Left out

- The cryptographic primitives are uninterpreted parameters. This covers X25519 (`nacl.box.keyPair`, `nacl.box.before`), HKDF-SHA-256, the AES-GCM import/encrypt/decrypt calls and `TextEncoder`; the model does not compute them. `DecryptOpensEncrypt`, `SharedSecretAgrees` and `RecipientKeyOpensSend` take the properties of a correct cipher and of X25519 agreement on 32-byte keys as hypotheses.
- The ethers calls (`Mnemonic.fromEntropy`, `Mnemonic.fromPhrase`, `HDNodeWallet.fromMnemonic`, `new Wallet(key)` and its address) are uninterpreted and may fail. In `createWallet` and `importFromMnemonic`, the second `new Wallet(hd.privateKey).privateKey` is taken to give back the same key.
- The keychain, the WalletConnect `SignClient`, the RPC provider and the pinning service are remote calls. Each one modelled is a parameter holding the result it resolves to. Their options (keychain accessibility, the `requiredNamespaces`, the client metadata, the disconnect reason code) are not modelled.
- `getSigner`'s `wallet.connect(getProvider())` and the RPC URL are not modelled. The signer is its key and address.
- `connectMetaMask`'s `uri` branch does nothing, and is left out. A session without an `eip155` namespace would cause a `TypeError` in the code; the model does not capture that case. An empty account list is modelled as a `TypeError`.
- `usePersistedState` (the `AsyncStorage` load and save of the wallet state, and the JSON round-trip) is not modelled. The provider starts from `{}`.
- `getSignerFromPrivateKey` (pirate-vote-mobile/src/utils/crypto.ts:41-44) is an unused placeholder that returns its argument. It is not modelled.
- React itself is not modelled: renders, hooks, contexts, `useMemo`, and the interleaving of concurrent async calls. Each provider method runs as one atomic step.
- `storage.ts`, `VotingContext.tsx`, `contracts.ts`, the screens and the app configuration are not part of this model.
- Strings are sequences of Unicode scalar values, where JavaScript uses UTF-16 code units. A character outside the Basic Multilingual Plane is one `char` here and two units there, and a lone surrogate cannot be represented. Neither changes `trim`, `split(':')` or which inputs `parseMaybeHex` accepts, because no character outside the Basic Multilingual Plane is white space, a hex digit or `:`. The white-space set of `trim` follows the Unicode space-separator set in current use. No normalisation is done.
- There is no receive path that decrypts: the record carries no ephemeral public key, and `receiveMessage` returns a placeholder. Only the `decryptMessage` wrapper itself is modelled.
