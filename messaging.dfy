/**
 * The secure-messaging provider: a contact list and a message log in memory, and the send
 * pipeline that seals a plaintext for a contact, pins it and appends the record.
 */
module Messaging {
  import opened Wrappers
  import opened Crypto

  /** A recipient: an address and a static X25519 public key. */
  datatype Contact = Contact(address: string, publicKey: Bytes)

  /** The locator the pinning service returns. */
  datatype IpfsPointer = IpfsPointer(cid: string)

  /** A sent message as the log keeps it. It has no field for the ephemeral public key. */
  datatype EncryptedMessage = EncryptedMessage(
    from: string, to: string, nonce: Bytes, ciphertext: Bytes, pointer: Option<IpfsPointer>)

  /** The object handed to the pinning service: the record's fields without a pointer. */
  datatype PinPayload = PinPayload(from: string, to: string, nonce: Bytes, ciphertext: Bytes)

  /** The pinning service (`addMessageToIpfs`), left uninterpreted: it may fail. */
  type Pinner = PinPayload -> Result<IpfsPointer>

  const Sender := "me"
  /** The HKDF label every message key is derived under. */
  const MessagingLabel := "pirate-vote-messaging"
  const ReceivePlaceholder := "Decryption placeholder (supply recipient key to decrypt)"

  function PayloadOf(msg: EncryptedMessage): PinPayload {
    PinPayload(msg.from, msg.to, msg.nonce, msg.ciphertext)
  }

  /** The AES-GCM key a send to `to` uses when its ephemeral secret key is `ephemeralSecret`. */
  function MessageKey<K>(p: Primitives<K>, ephemeralSecret: Bytes, to: Contact): Result<K> {
    var shared :- DeriveSharedSecret(p, ephemeralSecret, to.publicKey);
    HkdfDeriveKey(p, shared, MessagingLabel)
  }

  /**
   * What `sendMessage(to, plaintext)` returns, given the library calls, the pinning service, and the
   * 32 random bytes of the ephemeral secret key and 12 random bytes of the nonce that the call draws.
   */
  function SendOutcome<K>(p: Primitives<K>, pin: Pinner, to: Contact, plaintext: string,
                          ephemeralSecret: Bytes, randomNonce: Bytes): (r: Result<EncryptedMessage>)
    requires |ephemeralSecret| == SecretKeyLength && |randomNonce| == NonceLength
    // The record: a fixed sender, the contact's address, the nonce and ciphertext encryption returned,
    // and the pointer pinning returned for a payload with the same four fields.
    ensures r.Ok? ==> r.value.from == Sender && r.value.to == to.address
    ensures r.Ok? ==> |r.value.nonce| == NonceLength && r.value.nonce == randomNonce
    ensures r.Ok? ==> r.value.pointer.Some? && pin(PayloadOf(r.value)) == Ok(r.value.pointer.value)
    // The key comes from the fresh ephemeral secret and the contact's public key, under the fixed label,
    // and seals the UTF-8 bytes of the plaintext.
    ensures r.Ok? ==> var key := MessageKey(p, ephemeralSecret, to);
      key.Ok? && p.aesGcmEncrypt(key.value, r.value.nonce, p.utf8Encode(plaintext)) == Ok(r.value.ciphertext)
    // Any failing step fails the send.
    ensures MessageKey(p, ephemeralSecret, to).Err? ==> r.Err?
    ensures MessageKey(p, ephemeralSecret, to).Ok? ==>
      var sealed := EncryptMessage(p, MessageKey(p, ephemeralSecret, to).value, p.utf8Encode(plaintext), randomNonce);
      (sealed.Err? ==> r.Err?)
      && (sealed.Ok? ==> (r.Err? <==> pin(PinPayload(Sender, to.address, sealed.value.nonce, sealed.value.ciphertext)).Err?))
  {
    var eph := GenerateEphemeralKeyPair(p, ephemeralSecret);
    var shared :- DeriveSharedSecret(p, eph.secretKey, to.publicKey);
    var aesKey :- HkdfDeriveKey(p, shared, MessagingLabel);
    var sealed :- EncryptMessage(p, aesKey, p.utf8Encode(plaintext), randomNonce);
    var pointer :- pin(PinPayload(Sender, to.address, sealed.nonce, sealed.ciphertext));
    Ok(EncryptedMessage(Sender, to.address, sealed.nonce, sealed.ciphertext, Some(pointer)))
  }

  /**
   * The public half of the ephemeral key pair plays no part in a send: changing how it is computed
   * changes nothing in the outcome, so nothing about it reaches the record.
   */
  lemma SendDiscardsEphemeralPublicKey<K>(p: Primitives<K>, derivePublic: Bytes -> Bytes, pin: Pinner,
                                          to: Contact, plaintext: string, ephemeralSecret: Bytes, randomNonce: Bytes)
    requires |ephemeralSecret| == SecretKeyLength && |randomNonce| == NonceLength
    ensures SendOutcome(p.(x25519Base := derivePublic), pin, to, plaintext, ephemeralSecret, randomNonce)
         == SendOutcome(p, pin, to, plaintext, ephemeralSecret, randomNonce)
  {
  }

  /**
   * A recipient that held the ephemeral public key could open a sent record: its static secret with
   * that key gives the sender's message key, which opens the ciphertext to the plaintext's UTF-8
   * bytes. The record does not carry that public key, so `receiveMessage` cannot do this.
   */
  lemma RecipientKeyOpensSend<K(!new)>(p: Primitives<K>, pin: Pinner, to: Contact, recipientSecret: Bytes,
                                       plaintext: string, ephemeralSecret: Bytes, randomNonce: Bytes)
    requires AeadCorrect(p) && KeyAgreement(p)
    requires |recipientSecret| == SecretKeyLength && to.publicKey == p.x25519Base(recipientSecret)
    requires |ephemeralSecret| == SecretKeyLength && |randomNonce| == NonceLength
    requires SendOutcome(p, pin, to, plaintext, ephemeralSecret, randomNonce).Ok?
    ensures var msg := SendOutcome(p, pin, to, plaintext, ephemeralSecret, randomNonce).value;
      var ephemeralPublic := GenerateEphemeralKeyPair(p, ephemeralSecret).publicKey;
      var shared := DeriveSharedSecret(p, recipientSecret, ephemeralPublic);
      var key := HkdfDeriveKey(p, shared.value, MessagingLabel);
      shared.Ok? && key.Ok? && DecryptMessage(p, key.value, msg.nonce, msg.ciphertext) == Ok(p.utf8Encode(plaintext))
  {
    var msg := SendOutcome(p, pin, to, plaintext, ephemeralSecret, randomNonce).value;
    SharedSecretAgrees(p, ephemeralSecret, recipientSecret);
    var key := MessageKey(p, ephemeralSecret, to);
    DecryptOpensEncrypt(p, key.value, p.utf8Encode(plaintext), randomNonce);
  }

  /** The two in-memory lists. */
  datatype Logs = Logs(contacts: seq<Contact>, messages: seq<EncryptedMessage>)

  /** One call on the provider, with what it returned. */
  datatype Call =
    | AddContactCall(contact: Contact)
    | SendCall(outcome: Result<EncryptedMessage>)
    | ReceiveCall(msg: EncryptedMessage)

  /** The lists after one call: adding appends a contact, a successful send appends its record. */
  function Step(logs: Logs, call: Call): Logs {
    match call
    case AddContactCall(c) => logs.(contacts := logs.contacts + [c])
    case SendCall(outcome) => if outcome.Ok? then logs.(messages := logs.messages + [outcome.value]) else logs
    case ReceiveCall(_) => logs
  }

  function Run(logs: Logs, calls: seq<Call>): Logs
    decreases |calls|
  {
    if calls == [] then logs else Run(Step(logs, calls[0]), calls[1..])
  }

  /** The contacts the calls add, in call order. */
  function Added(calls: seq<Call>): seq<Contact> {
    if calls == [] then []
    else (if calls[0].AddContactCall? then [calls[0].contact] else []) + Added(calls[1..])
  }

  /** The records of the successful sends among the calls, in call order. */
  function Delivered(calls: seq<Call>): seq<EncryptedMessage> {
    if calls == [] then []
    else (if calls[0].SendCall? && calls[0].outcome.Ok? then [calls[0].outcome.value] else []) + Delivered(calls[1..])
  }

  /**
   * Both lists are append-only: over any sequence of calls, the contacts grow by exactly the added
   * contacts and the messages by exactly the records of the successful sends, each in call order.
   */
  lemma {:induction false} RunAppends(logs: Logs, calls: seq<Call>)
    ensures Run(logs, calls) == Logs(logs.contacts + Added(calls), logs.messages + Delivered(calls))
    decreases |calls|
  {
    if calls != [] {
      var next := Step(logs, calls[0]);
      RunAppends(next, calls[1..]);
      match calls[0]
      case AddContactCall(c) =>
        assert logs.contacts + Added(calls) == next.contacts + Added(calls[1..]);
        assert logs.messages + Delivered(calls) == next.messages + Delivered(calls[1..]);
      case SendCall(outcome) =>
        assert logs.contacts + Added(calls) == next.contacts + Added(calls[1..]);
        assert logs.messages + Delivered(calls) == next.messages + Delivered(calls[1..]);
      case ReceiveCall(_) =>
        assert logs.contacts + Added(calls) == next.contacts + Added(calls[1..]);
        assert logs.messages + Delivered(calls) == next.messages + Delivered(calls[1..]);
    }
  }

  /** The provider of `useMessaging`. */
  class MessagingProvider {
    var contacts: seq<Contact>
    var messages: seq<EncryptedMessage>

    function Snapshot(): Logs
      reads this
    {
      Logs(contacts, messages)
    }

    constructor ()
      ensures contacts == [] && messages == []
    {
      contacts, messages := [], [];
    }

    /** `addContact`: appends, with no check for an address already present. */
    method AddContact(contact: Contact)
      modifies this
      ensures Snapshot() == Step(old(Snapshot()), AddContactCall(contact))
      ensures contacts == old(contacts) + [contact] && messages == old(messages)
    {
      contacts := contacts + [contact];
    }

    /**
     * `sendMessage`: a fresh ephemeral key pair, the shared secret with the contact's key, the key
     * under the messaging label, the seal, the pin; the record is appended only once all succeeded.
     */
    method SendMessage<K>(p: Primitives<K>, pin: Pinner, to: Contact, plaintext: string,
                          ephemeralSecret: Bytes, randomNonce: Bytes) returns (r: Result<EncryptedMessage>)
      requires |ephemeralSecret| == SecretKeyLength && |randomNonce| == NonceLength
      modifies this
      ensures r == SendOutcome(p, pin, to, plaintext, ephemeralSecret, randomNonce)
      ensures Snapshot() == Step(old(Snapshot()), SendCall(r))
      ensures messages == (if r.Ok? then old(messages) + [r.value] else old(messages))
      ensures contacts == old(contacts)
    {
      ghost var spec := SendOutcome(p, pin, to, plaintext, ephemeralSecret, randomNonce);
      var eph := GenerateEphemeralKeyPair(p, ephemeralSecret);
      var shared := DeriveSharedSecret(p, eph.secretKey, to.publicKey);
      if shared.Err? {
        assert spec == Err(shared.error);
        return Err(shared.error);
      }
      var aesKey := HkdfDeriveKey(p, shared.value, MessagingLabel);
      if aesKey.Err? {
        assert spec == Err(aesKey.error);
        return Err(aesKey.error);
      }
      var sealed := EncryptMessage(p, aesKey.value, p.utf8Encode(plaintext), randomNonce);
      if sealed.Err? {
        assert spec == Err(sealed.error);
        return Err(sealed.error);
      }
      var nonce, ciphertext := sealed.value.nonce, sealed.value.ciphertext;
      var pointer := pin(PinPayload(Sender, to.address, nonce, ciphertext));
      if pointer.Err? {
        assert spec == Err(pointer.error);
        return Err(pointer.error);
      }
      var msg := EncryptedMessage(Sender, to.address, nonce, ciphertext, Some(pointer.value));
      assert spec == Ok(msg);
      messages := messages + [msg];
      r := Ok(msg);
    }

    /** `receiveMessage`: a placeholder that decrypts nothing and changes neither list. */
    method ReceiveMessage(msg: EncryptedMessage) returns (plaintext: string)
      ensures plaintext == ReceivePlaceholder
    {
      plaintext := ReceivePlaceholder;
    }
  }
}
