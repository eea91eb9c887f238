/**
 * The wallet session: which identity the app holds and how it is connected, kept together with
 * the keychain slot that holds a local private key.
 */
module Wallet {
  import opened Wrappers
  import JsString
  import Crypto

  datatype ConnectionKind = Local | WalletConnect

  /**
   * An identity. `address` is optional because the account-id parse can yield `undefined`, which the
   * code stores as it is.
   */
  datatype WalletIdentity = WalletIdentity(address: Option<string>, chainId: int)

  /** `WalletState`: all three members optional; `{}` is the empty state. */
  datatype WalletState = WalletState(
    identity: Option<WalletIdentity>, connectedWith: Option<ConnectionKind>, wcTopic: Option<string>)

  /** The session state together with the keychain slot (the generic password of the wallet service). */
  datatype Session = Session(state: WalletState, keychain: Option<string>)

  /** A signer over a local key, connected to the RPC provider. */
  datatype Signer = Signer(privateKey: string, address: string)

  /** An approved WalletConnect session: its topic and its `eip155` account ids. */
  datatype WcSession = WcSession(topic: string, accounts: seq<string>)

  /** A mnemonic, identified with its phrase. */
  type Mnemonic = string

  /** The ethers calls the provider makes, left uninterpreted: each may fail. */
  datatype WalletSdk = WalletSdk(
    mnemonicFromEntropy: Crypto.Bytes -> Result<Mnemonic>,  // Mnemonic.fromEntropy
    mnemonicFromPhrase: string -> Result<Mnemonic>,  // Mnemonic.fromPhrase
    account0Key: Mnemonic -> Result<string>,         // the private key of HDNodeWallet.fromMnemonic
    walletAddress: string -> Result<string>)         // new Wallet(key) and its address; fails when ethers rejects the key

  const Empty := WalletState(None, None, None)
  const MainnetChainId := 1
  const NotInitialized := "WalletConnect not initialized"

  /** The state after a local key is persisted: exactly an identity on chain 1 and `local`, no topic. */
  function LocalState(address: string): WalletState {
    WalletState(Some(WalletIdentity(Some(address), MainnetChainId)), Some(Local), None)
  }

  /** The three shapes a session state takes: empty, local with an identity, WalletConnect with an identity and a topic. */
  predicate WellFormed(s: WalletState) {
    s == Empty
    || (s.connectedWith == Some(Local) && s.identity.Some? && s.identity.value.address.Some?
        && s.identity.value.chainId == MainnetChainId && s.wcTopic.None?)
    || (s.connectedWith == Some(WalletConnect) && s.identity.Some?
        && s.identity.value.chainId == MainnetChainId && s.wcTopic.Some?)
  }

  /** The invariant the provider keeps: a well-formed state, and a local session always has a key in the keychain. */
  predicate Consistent(s: Session) {
    WellFormed(s.state) && (s.state.connectedWith == Some(Local) ==> s.keychain.Some?)
  }

  // ---------------------------------------------------------------------------------------------
  // Pure parts

  /** `strength / 8`: the bytes of entropy drawn for a 128-bit (12-word) or 256-bit (24-word) mnemonic. */
  function EntropyLength(strength: nat): (n: nat)
    requires strength == 128 || strength == 256
    ensures n * 8 == strength
    ensures strength == 128 ==> n == 16
    ensures strength == 256 ==> n == 32
  {
    strength / 8
  }

  /** `accountId.split(':')[2]`: the third `:`-separated field, or `undefined` when there are fewer than three. */
  function AccountAddress(accountId: string): (r: Option<string>)
    ensures r.Some? <==> |JsString.Split(accountId, ':')| >= 3
    ensures r.Some? ==> ':' !in r.value
  {
    var fields := JsString.Split(accountId, ':');
    if |fields| >= 3 then Some(fields[2]) else None
  }

  /** Whatever fields the id is made of, the address is the third. */
  lemma AccountAddressOfFields(fields: seq<string>)
    requires |fields| >= 3 && forall k | 0 <= k < |fields| :: ':' !in fields[k]
    ensures AccountAddress(JsString.Join(fields, ':')) == Some(fields[2])
  {
    JsString.SplitJoin(fields, ':');
  }

  /** An id with fewer than three fields gives an `undefined` address. */
  lemma AccountAddressOfShortId(fields: seq<string>)
    requires 1 <= |fields| < 3 && forall k | 0 <= k < |fields| :: ':' !in fields[k]
    ensures AccountAddress(JsString.Join(fields, ':')) == None
  {
    JsString.SplitJoin(fields, ':');
  }

  /** A CAIP-10 account id `namespace:reference:address` gives its address. */
  lemma AccountAddressOfCaip10(namespace: string, reference: string, address: string)
    requires ':' !in namespace && ':' !in reference && ':' !in address
    ensures AccountAddress(namespace + ":" + reference + ":" + address) == Some(address)
  {
    var fields := [namespace, reference, address];
    assert JsString.Join(fields[2..], ':') == address;
    assert JsString.Join(fields[1..], ':') == reference + [':'] + address;
    assert JsString.Join(fields, ':') == namespace + ":" + reference + ":" + address;
    AccountAddressOfFields(fields);
  }

  /** The private key of account 0 of a mnemonic made from `entropy`. */
  function KeyFromEntropy(sdk: WalletSdk, entropy: Crypto.Bytes): (r: Result<string>)
    ensures sdk.mnemonicFromEntropy(entropy).Err? ==> r.Err?
    ensures sdk.mnemonicFromEntropy(entropy).Ok? ==> r == sdk.account0Key(sdk.mnemonicFromEntropy(entropy).value)
  {
    var mnemonic :- sdk.mnemonicFromEntropy(entropy);
    sdk.account0Key(mnemonic)
  }

  /** The private key of account 0 of the mnemonic a phrase spells; the phrase is trimmed first. */
  function KeyFromPhrase(sdk: WalletSdk, phrase: string): (r: Result<string>)
    ensures sdk.mnemonicFromPhrase(JsString.Trim(phrase)).Err? ==> r.Err?
    ensures sdk.mnemonicFromPhrase(JsString.Trim(phrase)).Ok? ==>
      r == sdk.account0Key(sdk.mnemonicFromPhrase(JsString.Trim(phrase)).value)
  {
    var mnemonic :- sdk.mnemonicFromPhrase(JsString.Trim(phrase));
    sdk.account0Key(mnemonic)
  }

  /** White space around a phrase makes no difference to the key imported. */
  lemma KeyFromPhraseIgnoresPadding(sdk: WalletSdk, w1: string, phrase: string, w2: string)
    requires JsString.AllWhiteSpace(w1) && JsString.AllWhiteSpace(w2)
    ensures KeyFromPhrase(sdk, w1 + phrase + w2) == KeyFromPhrase(sdk, phrase)
  {
    JsString.TrimIgnoresPadding(w1, phrase, w2);
  }

  /**
   * `getSigner`: a signer only for a local session whose keychain slot holds a key, and then over
   * that key; nothing (`undefined`) otherwise. `keychainRead` is how the awaited keychain read
   * settles: it rejects, for instance, when the user cancels the biometric prompt, and then so does
   * `getSigner`. It also throws when ethers rejects the stored key.
   */
  function GetSigner(s: Session, sdk: WalletSdk, keychainRead: Result<()>): (r: Result<Option<Signer>>)
    ensures r == Ok(None) <==>
      s.state.connectedWith != Some(Local) || (keychainRead.Ok? && s.keychain.None?)
    ensures r.Ok? && r.value.Some? ==>
      s.state.connectedWith == Some(Local) && keychainRead.Ok? && s.keychain == Some(r.value.value.privateKey)
      && sdk.walletAddress(r.value.value.privateKey) == Ok(r.value.value.address)
    ensures r.Err? <==>
      s.state.connectedWith == Some(Local)
      && (keychainRead.Err? || (s.keychain.Some? && sdk.walletAddress(s.keychain.value).Err?))
    ensures s.state.connectedWith == Some(Local) && keychainRead.Err? ==> r == Err(keychainRead.error)
  {
    if s.state.connectedWith == Some(Local) then
      var _ :- keychainRead;
      match s.keychain
      case None => Ok(None)
      case Some(key) =>
        var address :- sdk.walletAddress(key);
        Ok(Some(Signer(key, address)))
    else Ok(None)
  }

  /** Under the provider's invariant a local session never finds the keychain slot empty. */
  lemma ConsistentLocalSessionHasSigner(s: Session, sdk: WalletSdk, keychainRead: Result<()>)
    requires Consistent(s) && s.state.connectedWith == Some(Local)
    ensures GetSigner(s, sdk, keychainRead) != Ok(None)
  {
  }

  /** `getBalance`: nothing without an identity, otherwise what the provider reports for its address. */
  function GetBalance(s: Session, balanceOf: Option<string> -> Result<nat>): (r: Result<Option<nat>>)
    ensures s.state.identity.None? ==> r == Ok(None)
    ensures s.state.identity.Some? ==>
      var reported := balanceOf(s.state.identity.value.address);
      (r.Ok? <==> reported.Ok?) && (r.Ok? ==> r.value == Some(reported.value))
  {
    match s.state.identity
    case None => Ok(None)
    case Some(identity) =>
      var balance :- balanceOf(identity.address);
      Ok(Some(balance))
  }

  /** `disconnect` tells WalletConnect only for a `walletconnect` session with a client and a non-empty topic. */
  function RemoteTopic(s: WalletState, hasClient: bool): (topic: Option<string>)
    ensures topic.Some? ==> s.connectedWith == Some(WalletConnect) && hasClient && topic == s.wcTopic && topic.value != ""
    ensures topic.None? ==> s.connectedWith != Some(WalletConnect) || !hasClient || s.wcTopic.None? || s.wcTopic == Some("")
  {
    if s.connectedWith == Some(WalletConnect) && hasClient && s.wcTopic.Some? && s.wcTopic.value != ""
    then s.wcTopic else None
  }

  // ---------------------------------------------------------------------------------------------
  // Transitions

  /**
   * `persistLocalKey`, after the key has been obtained (or failed to be): the keychain is written
   * first, then the key is handed to ethers for its address, then the state is replaced.
   */
  function AfterPersist(s: Session, sdk: WalletSdk, key: Result<string>, keychainWrite: Result<()>): (out: (Session, Result<()>))
    ensures key.Err? ==> out == (s, Err(key.error))
    ensures key.Ok? && keychainWrite.Err? ==> out == (s, Err(keychainWrite.error))
    ensures key.Ok? && keychainWrite.Ok? ==> out.0.keychain == Some(key.value)
    ensures out.1.Ok? <==> key.Ok? && keychainWrite.Ok? && sdk.walletAddress(key.value).Ok?
    ensures out.1.Ok? ==> out.0.state == LocalState(sdk.walletAddress(key.value).value)
    ensures out.1.Err? ==> out.0.state == s.state
    ensures out.1.Ok? ==> GetSigner(out.0, sdk, Ok(())) == Ok(Some(Signer(key.value, sdk.walletAddress(key.value).value)))
    ensures Consistent(s) ==> Consistent(out.0)
  {
    if key.Err? then (s, Err(key.error))
    else if keychainWrite.Err? then (s, Err(keychainWrite.error))
    else
      var stored := s.(keychain := Some(key.value));
      match sdk.walletAddress(key.value)
      case Err(e) => (stored, Err(e))
      case Ok(address) => (stored.(state := LocalState(address)), Ok(()))
  }

  /** `connectMetaMask`: throws without a client; on approval, a WalletConnect identity from the first account. */
  function AfterConnect(s: Session, hasClient: bool, approval: Result<WcSession>): (out: (Session, Result<()>))
    ensures !hasClient ==> out == (s, Err(Thrown(NotInitialized)))
    ensures out.0.keychain == s.keychain
    ensures out.1.Err? ==> out.0 == s
    ensures out.1.Ok? <==> hasClient && approval.Ok? && |approval.value.accounts| > 0
    ensures out.1.Ok? ==> out.0.state == WalletState(
      Some(WalletIdentity(AccountAddress(approval.value.accounts[0]), MainnetChainId)),
      Some(WalletConnect), Some(approval.value.topic))
    ensures Consistent(s) ==> Consistent(out.0)
  {
    if !hasClient then (s, Err(Thrown(NotInitialized)))
    else match approval
      case Err(e) => (s, Err(e))
      case Ok(session) =>
        if |session.accounts| == 0 then (s, Err(TypeError))
        else
          var address := AccountAddress(session.accounts[0]);
          (s.(state := WalletState(Some(WalletIdentity(address, MainnetChainId)), Some(WalletConnect), Some(session.topic))), Ok(()))
  }

  /**
   * `disconnect`: the remote disconnect when `RemoteTopic` names a topic, then the keychain reset, then
   * the empty state. A rejected remote call or reset stops it there, state untouched.
   */
  function AfterDisconnect(s: Session, hasClient: bool, remoteResult: Result<()>, keychainReset: Result<()>): (out: (Session, Option<string>, Result<()>))
    ensures out.1 == RemoteTopic(s.state, hasClient)
    ensures out.2.Ok? <==> (out.1.None? || remoteResult.Ok?) && keychainReset.Ok?
    ensures out.2.Ok? ==> out.0 == Session(Empty, None)
    ensures out.2.Err? ==> out.0 == s
    ensures Consistent(s) ==> Consistent(out.0)
  {
    var topic := RemoteTopic(s.state, hasClient);
    if topic.Some? && remoteResult.Err? then (s, topic, Err(remoteResult.error))
    else if keychainReset.Err? then (s, topic, Err(keychainReset.error))
    else (Session(Empty, None), topic, Ok(()))
  }

  /** The provider of `useWallet`. */
  class WalletProvider {
    var state: WalletState
    var keychain: Option<string>
    /** Whether the lazily initialised WalletConnect client exists. */
    var wcClient: bool

    function Snapshot(): Session
      reads this
    {
      Session(state, keychain)
    }

    ghost predicate Valid()
      reads this
    {
      Consistent(Snapshot())
    }

    /** The provider starts from `{}` and whatever the device keychain already holds. */
    constructor (storedKey: Option<string>)
      ensures Valid() && state == Empty && keychain == storedKey && !wcClient
    {
      state, keychain, wcClient := Empty, storedKey, false;
    }

    /** The initialisation effect: a client only when a project id is configured and `SignClient.init` resolves. */
    method InitWalletConnect(projectId: string, init: Result<()>)
      modifies this`wcClient
      ensures wcClient == (old(wcClient) || (projectId != "" && init.Ok?))
    {
      if projectId == "" {
        return;
      }
      if init.Ok? {
        wcClient := true;
      }
    }

    method PersistLocalKey(sdk: WalletSdk, privateKeyHex: string, keychainWrite: Result<()>) returns (r: Result<()>)
      requires Valid()
      modifies this`state, this`keychain
      ensures Valid()
      ensures (Snapshot(), r) == AfterPersist(old(Snapshot()), sdk, Ok(privateKeyHex), keychainWrite)
    {
      if keychainWrite.Err? {
        return Err(keychainWrite.error);
      }
      keychain := Some(privateKeyHex);
      var address := sdk.walletAddress(privateKeyHex);
      if address.Err? {
        return Err(address.error);
      }
      state := LocalState(address.value);
      r := Ok(());
    }

    /** `createWallet`: `strength / 8` random bytes make the mnemonic whose account 0 is persisted. */
    method CreateWallet(sdk: WalletSdk, strength: nat, entropy: Crypto.Bytes, keychainWrite: Result<()>) returns (r: Result<()>)
      requires strength == 128 || strength == 256
      requires |entropy| == EntropyLength(strength)
      requires Valid()
      modifies this`state, this`keychain
      ensures Valid()
      ensures (Snapshot(), r) == AfterPersist(old(Snapshot()), sdk, KeyFromEntropy(sdk, entropy), keychainWrite)
    {
      var mnemonic := sdk.mnemonicFromEntropy(entropy);
      if mnemonic.Err? {
        return Err(mnemonic.error);
      }
      var key := sdk.account0Key(mnemonic.value);
      if key.Err? {
        return Err(key.error);
      }
      r := PersistLocalKey(sdk, key.value, keychainWrite);
    }

    /** `importFromMnemonic`: the trimmed phrase's account 0 is persisted. */
    method ImportFromMnemonic(sdk: WalletSdk, phrase: string, keychainWrite: Result<()>) returns (r: Result<()>)
      requires Valid()
      modifies this`state, this`keychain
      ensures Valid()
      ensures (Snapshot(), r) == AfterPersist(old(Snapshot()), sdk, KeyFromPhrase(sdk, phrase), keychainWrite)
    {
      var mnemonic := sdk.mnemonicFromPhrase(JsString.Trim(phrase));
      if mnemonic.Err? {
        return Err(mnemonic.error);
      }
      var key := sdk.account0Key(mnemonic.value);
      if key.Err? {
        return Err(key.error);
      }
      r := PersistLocalKey(sdk, key.value, keychainWrite);
    }

    /** `importFromPrivateKey`: the normalised `0x` form is persisted; a rejected string changes nothing. */
    method ImportFromPrivateKey(sdk: WalletSdk, privateKey: string, keychainWrite: Result<()>) returns (r: Result<()>)
      requires Valid()
      modifies this`state, this`keychain
      ensures Valid()
      ensures (Snapshot(), r) == AfterPersist(old(Snapshot()), sdk, Crypto.ParseMaybeHex(privateKey), keychainWrite)
      ensures Crypto.ParseMaybeHex(privateKey).Err? ==>
        r == Err(Thrown(Crypto.InvalidKeyFormat)) && state == old(state) && keychain == old(keychain)
    {
      var hex := Crypto.ParseMaybeHex(privateKey);
      if hex.Err? {
        return Err(hex.error);
      }
      r := PersistLocalKey(sdk, hex.value, keychainWrite);
    }

    /** `connectMetaMask`; `approval` is what the connect request and its approval resolve to. */
    method ConnectMetaMask(approval: Result<WcSession>) returns (r: Result<()>)
      requires Valid()
      modifies this`state
      ensures Valid()
      ensures (Snapshot(), r) == AfterConnect(old(Snapshot()), wcClient, approval)
    {
      if !wcClient {
        return Err(Thrown(NotInitialized));
      }
      if approval.Err? {
        return Err(approval.error);
      }
      var accounts := approval.value.accounts;
      if |accounts| == 0 {
        return Err(TypeError);
      }
      var address := AccountAddress(accounts[0]);
      state := WalletState(Some(WalletIdentity(address, MainnetChainId)), Some(WalletConnect), Some(approval.value.topic));
      r := Ok(());
    }

    /**
     * `disconnect`; `remoteTopic` is the topic the WalletConnect disconnect was sent for, if it was sent,
     * and `remoteResult` and `keychainReset` are what those two calls resolve to.
     */
    method Disconnect(remoteResult: Result<()>, keychainReset: Result<()>) returns (remoteTopic: Option<string>, r: Result<()>)
      requires Valid()
      modifies this`state, this`keychain
      ensures Valid()
      ensures (Snapshot(), remoteTopic, r) == AfterDisconnect(old(Snapshot()), wcClient, remoteResult, keychainReset)
    {
      remoteTopic := RemoteTopic(state, wcClient);
      if remoteTopic.Some? && remoteResult.Err? {
        return remoteTopic, Err(remoteResult.error);
      }
      if keychainReset.Err? {
        return remoteTopic, Err(keychainReset.error);
      }
      keychain := None;
      state := Empty;
      r := Ok(());
    }
  }
}
