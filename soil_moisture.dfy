/** The soil-moisture synchronisation hook (ui/src/hooks/useSoilMoisture.tsx).

    The hook owns four state fields: the cached ciphertext handle, the last decrypted
    value, a loading flag and a status message. Three workflows drive them. Every call
    they make to the outside world (FHEVM, the RPC provider, the contract, the wallet)
    is answered by a script of replies given as a parameter, so each workflow is a
    deterministic transition. Each workflow is specified by a pure step function on
    `State`; the `Hook` class runs it step by step and is proved to end in the state
    that function names. */
module SoilMoisture {

  import opened Wrappers
  import opened Text
  import Provider

  // ---------------------------------------------------------------------------
  // Values the hook handles

  /** A JavaScript Number, as far as the range check can tell them apart. */
  datatype Number = NaN | NegInfinity | PosInfinity | Finite(r: real)

  /** The hook's range check `moisture < 0 || moisture > 100`. Every comparison with NaN
      is false, so NaN is NOT out of range here. */
  predicate OutOfRange(n: Number)
    ensures OutOfRange(n) <==> n != NaN && !(n.Finite? && 0.0 <= n.r <= 100.0)
  {
    match n
    case NaN => false
    case NegInfinity => true
    case PosInfinity => true
    case Finite(r) => r < 0.0 || r > 100.0
  }

  /** `error.code` as far as the load workflow distinguishes it. */
  datatype ErrorCode = UnknownError | InternalRpcError | OtherCode

  /** A thrown error: ethers' `reason`, `message`, `code`, and `String(error)`.
      An empty string stands for an absent (falsy) property. */
  datatype Failure = Failure(reason: string, message: string, code: ErrorCode, text: string)

  /** `new Error(msg)` thrown by the hook itself. */
  function Thrown(msg: string): (e: Failure)
    ensures e.reason == "" && e.message == msg && e.code == OtherCode
  {
    Failure("", msg, OtherCode, "Error: " + msg)
  }

  /** `error.reason || error.message || String(error)`. */
  function ReasonText(e: Failure): string {
    if e.reason != "" then e.reason else if e.message != "" then e.message else e.text
  }

  /** `error.message || String(error)`. */
  function MessageText(e: Failure): string {
    if e.message != "" then e.message else e.text
  }

  type Bytes = seq<bv8>

  /** The result of `encryptedInput.encrypt()`. */
  datatype Encrypted = Encrypted(handles: seq<Bytes>, inputProof: Bytes)

  /** How a workflow call ends: the promise resolves or rejects with an error. */
  datatype Outcome = Resolved | Rejected(error: Failure)

  /** The calls a workflow makes to the outside world, in the order it makes them. */
  datatype Call =
    | Encrypt(contract: string, user: string, value: Number)
    | GetCode(contract: string)
    | Submit(ciphertext: Bytes, proof: Bytes, gasLimit: nat)
    | SettleWait(milliseconds: nat)
    | GetBlockNumber
    | HasInitialized(user: string)
    | GetHandle(user: string)
    | BuildGrant
    | SignTypedData
    | UserDecrypt(handle: string, contract: string, user: string, signature: string)

  /** What the hook was created with: the configured contract address and what the
      wallet connection currently provides. `None` and `Some("")` are both falsy. */
  datatype Session = Session(
    contractAddress: Option<string>,
    hasSigner: bool,
    hasFhevm: bool,
    address: Option<string>,
    hasProvider: bool,
    chainId: int)
  {
    function Contract(): string { if contractAddress.Some? then contractAddress.value else "" }
    function User(): string { if address.Some? then address.value else "" }
  }

  /** The four state fields of the hook. */
  datatype State = State(
    encryptedMoisture: Option<string>,
    decryptedMoisture: Option<nat>,
    isLoading: bool,
    message: Option<string>)

  /** The state of a freshly mounted hook. */
  const Initial := State(None, None, false, None)

  /** The end of one workflow call: new state, outcome and the calls made. */
  datatype Step = Step(state: State, outcome: Outcome, calls: seq<Call>)

  // ---------------------------------------------------------------------------
  // Constants of the source

  const GasLimit := 5000000
  const SettleDelayMs := 2000
  const HandleLength := 66

  const MsgNoContract := "Contract address not configured. Please set VITE_CONTRACT_ADDRESS in .env.local"
  const MsgNoSigner := "Wallet signer not available. Please ensure your wallet is connected."
  const MsgNoFhevm := "FHEVM instance not initialized. Please wait for initialization."
  const MsgNoAddress := "Wallet address not available. Please connect your wallet."
  const MsgNoProvider := "Ethers provider not available."
  const MsgOutOfRange := "Soil moisture must be between 0 and 100"
  const MsgMissingHandle := "Encryption failed - missing handle or proof"
  const MsgRefreshing := "Soil moisture recorded successfully. Refreshing encrypted value..."
  const MsgRecorded := "Soil moisture recorded successfully! Wait a moment, then you can decrypt your value."
  const MsgInitCheckFailed := "Moisture recorded, but initialization check failed. Please try refreshing."
  const MsgRefreshFailed := "Moisture recorded, but failed to refresh value. Please refresh manually."
  const MsgMissingRequirements := "Missing requirements for decryption"
  const MsgNotRecorded := "You haven't recorded any soil moisture yet. Please record moisture first before decrypting."
  const MsgHardhatDown := "Cannot connect to Hardhat node. Please ensure 'npx hardhat node' is running on http://localhost:8545"
  const MsgNetworkFailed := "Network connection failed. Please check your internet connection and try again."
  /** The permission explanation: a headline and three causes with three remedies. */
  const MsgPermission := PermissionHeadline + PermissionCauses + PermissionRemedies
  const PermissionHeadline := "Decryption failed: "
  const PermissionCauses :=
    "You don't have permission to decrypt this handle. This may happen if:\n"
    + "1. The contract was redeployed and the handle is from an old deployment\n"
    + "2. You haven't recorded moisture yet\n"
    + "3. The transaction hasn't fully confirmed yet\n"
  const PermissionRemedies :=
    "\n"
    + "Please try:\n"
    + "1. Record moisture again to get a new handle with proper permissions\n"
    + "2. Wait a few seconds after recording before decrypting\n"
    + "3. Refresh the page and try again"

  function NotDeployedMessage(contract: string): string {
    "Contract not deployed at " + contract + ". Please deploy the contract first."
  }

  function InvalidHandleMessage(handle: string): string {
    "Invalid handle format: " + handle + ". Expected 66 characters (0x + 64 hex chars)"
  }

  function DecryptedMessage(v: nat): string {
    "Decrypted moisture: " + NatToDecimal(v) + "%"
  }

  /** A string property is present and non-empty (JavaScript truthiness). */
  predicate Present(o: Option<string>) {
    o.Some? && o.value != ""
  }

  // ---------------------------------------------------------------------------
  // recordMoisture

  /** Replies of the outside world to the calls `recordMoisture` may make. `submit`
      covers sending the transaction and waiting for its receipt. */
  datatype RecordReplies = RecordReplies(
    encrypt: Result<Encrypted, Failure>,
    code: Result<string, Failure>,
    submit: Result<(), Failure>,
    refreshCode: Result<string, Failure>,
    refreshInitialized: Result<bool, Failure>,
    refreshHandle: Result<string, Failure>)

  /** The checks made before anything else, in order; the first failing one names the
      message of the error thrown. */
  function RecordPrecondition(s: Session, moisture: Number): (r: Option<string>)
    ensures r == Some(MsgNoContract) <==> !Present(s.contractAddress)
    ensures r == Some(MsgNoSigner) <==> Present(s.contractAddress) && !s.hasSigner
    ensures r == Some(MsgNoFhevm) <==> Present(s.contractAddress) && s.hasSigner && !s.hasFhevm
    ensures r == Some(MsgNoAddress) <==>
      Present(s.contractAddress) && s.hasSigner && s.hasFhevm && !Present(s.address)
    ensures r == Some(MsgNoProvider) <==>
      Present(s.contractAddress) && s.hasSigner && s.hasFhevm && Present(s.address) && !s.hasProvider
    ensures r == Some(MsgOutOfRange) <==> RecordReady(s) && OutOfRange(moisture)
    ensures r == None <==> RecordReady(s) && !OutOfRange(moisture)
  {
    if !Present(s.contractAddress) then Some(MsgNoContract)
    else if !s.hasSigner then Some(MsgNoSigner)
    else if !s.hasFhevm then Some(MsgNoFhevm)
    else if !Present(s.address) then Some(MsgNoAddress)
    else if !s.hasProvider then Some(MsgNoProvider)
    else if OutOfRange(moisture) then Some(MsgOutOfRange)
    else None
  }

  /** Everything `recordMoisture` needs is configured. */
  predicate RecordReady(s: Session) {
    Present(s.contractAddress) && s.hasSigner && s.hasFhevm && Present(s.address) && s.hasProvider
  }

  /** The encryption produced a first handle and a non-empty proof. */
  predicate Usable(e: Encrypted) {
    |e.handles| > 0 && |e.inputProof| > 0
  }

  /** The main try block failed with `e`: message "Error: <reason>", loading cleared,
      the promise rejects with `e`. */
  function RecordAbort(st: State, e: Failure, calls: seq<Call>): Step {
    Step(st.(isLoading := false, message := Some("Error: " + ReasonText(e))), Rejected(e), calls)
  }

  /** `recordMoisture(moisture)` from state `st`. */
  function RecordStep(st: State, s: Session, moisture: Number, rp: RecordReplies): (r: Step)
    ensures r.state.decryptedMoisture == st.decryptedMoisture
    ensures r.outcome == Resolved ==> RecordPrecondition(s, moisture) == None && rp.submit.Ok?
    ensures OutOfRange(moisture) ==> r.calls == [] && r.outcome.Rejected?
  {
    match RecordPrecondition(s, moisture)
    case Some(msg) => Step(st.(message := Some(msg)), Rejected(Thrown(msg)), [])
    case None =>
      var c1 := [Encrypt(s.Contract(), s.User(), moisture)];
      if rp.encrypt.Err? then RecordAbort(st, rp.encrypt.error, c1)
      else
        var c2 := c1 + [GetCode(s.Contract())];
        if rp.code.Err? then RecordAbort(st, rp.code.error, c2)
        else if NotDeployed(rp.code.value) then RecordAbort(st, Thrown(NotDeployedMessage(s.Contract())), c2)
        else if !Usable(rp.encrypt.value) then RecordAbort(st, Thrown(MsgMissingHandle), c2)
        else
          var enc := rp.encrypt.value;
          var c3 := c2 + [Submit(enc.handles[0], enc.inputProof, GasLimit)];
          if rp.submit.Err? then RecordAbort(st, rp.submit.error, c3)
          else RefreshStep(st.(isLoading := false), s, rp, c3 + [SettleWait(SettleDelayMs)])
  }

  /** The refresh after a confirmed transaction; its failures are caught and only change
      the message. */
  function RefreshStep(st: State, s: Session, rp: RecordReplies, calls: seq<Call>): (r: Step)
    ensures r.outcome == Resolved
    ensures r.state.decryptedMoisture == st.decryptedMoisture && r.state.isLoading == st.isLoading
    ensures |r.calls| > |calls| && r.calls[..|calls|] == calls && r.calls[|calls|] == GetCode(s.Contract())
  {
    var c0 := calls + [GetCode(s.Contract())];
    if rp.refreshCode.Err? then Step(st.(message := Some(MsgRefreshFailed)), Resolved, c0)
    else if !(rp.refreshCode.value != "" && |rp.refreshCode.value| > 2) then
      Step(st.(message := Some(MsgRefreshing)), Resolved, c0)
    else
      var c1 := c0 + [HasInitialized(s.User())];
      if rp.refreshInitialized.Err? then Step(st.(message := Some(MsgRefreshFailed)), Resolved, c1)
      else if !rp.refreshInitialized.value then Step(st.(message := Some(MsgInitCheckFailed)), Resolved, c1)
      else
        var c2 := c1 + [GetHandle(s.User())];
        if rp.refreshHandle.Err? then Step(st.(message := Some(MsgRefreshFailed)), Resolved, c2)
        else Step(st.(encryptedMoisture := Some(ToLower(rp.refreshHandle.value)), message := Some(MsgRecorded)), Resolved, c2)
  }

  /** The refresh's calls follow whatever was called before it, and its state does not
      depend on them. */
  lemma RefreshCallsFrom(st: State, s: Session, rp: RecordReplies, calls: seq<Call>)
    ensures RefreshStep(st, s, rp, calls).calls == calls + RefreshStep(st, s, rp, []).calls
    ensures RefreshStep(st, s, rp, calls).state == RefreshStep(st, s, rp, []).state
  {
    var c0 := [GetCode(s.Contract())];
    assert calls + c0 + [HasInitialized(s.User())] == calls + (c0 + [HasInitialized(s.User())]);
    assert calls + c0 + [HasInitialized(s.User())] + [GetHandle(s.User())]
        == calls + (c0 + [HasInitialized(s.User())] + [GetHandle(s.User())]);
  }

  // ---------------------------------------------------------------------------
  // decryptMoisture

  /** Replies to the calls `decryptMoisture` may make. `grant` covers producing the
      keypair and the typed-data structure; `decrypted` is the coprocessor's map from
      handle to cleartext. */
  datatype DecryptReplies = DecryptReplies(
    initialized: Result<bool, Failure>,
    handle: Result<string, Failure>,
    grant: Result<(), Failure>,
    signature: Result<string, Failure>,
    decrypted: Result<map<string, nat>, Failure>)

  /** Everything `decryptMoisture` needs is configured. */
  predicate DecryptReady(s: Session) {
    Present(s.contractAddress) && s.hasProvider && s.hasFhevm && s.hasSigner && Present(s.address)
  }

  /** A "0x"-prefixed handle is lower-cased; any other is kept as it is. */
  function NormalizeHandle(h: string): (r: string)
    ensures |r| == |h|
    ensures StartsWith(h, "0x") ==>
      StartsWith(r, "0x") && forall i :: 0 <= i < |r| ==> !('A' <= r[i] <= 'Z')
    ensures !StartsWith(h, "0x") ==> r == h
  {
    if h != "" && StartsWith(h, "0x") then ToLower(h) else h
  }

  /** The handle check `!handle || handle === "0x" || handle.length !== 66`, negated.
      `|h|` stands for `.length`: the getter returns hex text, which has no character
      beyond the Basic Multilingual Plane, so code points and UTF-16 units agree. */
  predicate AcceptedHandle(h: string)
    ensures AcceptedHandle(h) <==> |h| == HandleLength
  {
    !(h == "" || h == "0x" || |h| != HandleLength)
  }

  /** The signature handed to the coprocessor: on the local chain the first "0x" is
      removed, wherever it occurs. */
  function SignatureForDecrypt(chainId: int, signature: string): (r: string)
    ensures |r| <= |signature|
    ensures r == signature <==> chainId != Provider.LocalChainId || !Contains(signature, "0x")
  {
    if chainId == Provider.LocalChainId then RemoveFirst(signature, "0x") else signature
  }

  /** `Number(result[handle] || 0)`. */
  function DecryptedValue(result: map<string, nat>, h: string): (v: nat)
    ensures v == 0 || v in result.Values
    ensures h in result ==> v == result[h]
  {
    if h in result then result[h] else 0
  }

  /** The message shown for a failed decryption, from the error's message text. */
  function DecryptErrorMessage(msg: string): (r: string)
    ensures r == MsgPermission || r == "Error decrypting: " + msg
    ensures Contains(msg, "authorized") ==> r == MsgPermission
  {
    if Contains(msg, "not authorized") || Contains(msg, "authorized") then MsgPermission
    else "Error decrypting: " + msg
  }

  /** The try block failed with `e`: classified message, the promise rejects with `e`. */
  function DecryptAbort(st: State, e: Failure, calls: seq<Call>): Step {
    Step(st.(message := Some(DecryptErrorMessage(MessageText(e)))), Rejected(e), calls)
  }

  /** `decryptMoisture()` from state `st`. */
  function DecryptStep(st: State, s: Session, rp: DecryptReplies): (r: Step)
    ensures r.state.isLoading == st.isLoading
  {
    if !DecryptReady(s) then Step(st.(message := Some(MsgMissingRequirements)), Resolved, [])
    else
      var c1 := [HasInitialized(s.User())];
      if rp.initialized.Err? then DecryptAbort(st, rp.initialized.error, c1)
      else if !rp.initialized.value then DecryptAbort(st, Thrown(MsgNotRecorded), c1)
      else
        var c2 := c1 + [GetHandle(s.User())];
        if rp.handle.Err? then DecryptAbort(st, rp.handle.error, c2)
        else
          var h := NormalizeHandle(rp.handle.value);
          if !AcceptedHandle(h) then DecryptAbort(st, Thrown(InvalidHandleMessage(h)), c2)
          else
            var r := Authorize(st.(encryptedMoisture := Some(h)), s, h, rp);
            Step(r.state, r.outcome, c2 + r.calls)
  }

  /** The part of `decryptMoisture` after the handle was accepted and stored: produce
      the grant, sign it, ask the coprocessor, store the value it maps `h` to. */
  function Authorize(st: State, s: Session, h: string, rp: DecryptReplies): (r: Step)
    ensures r.state.isLoading == st.isLoading && r.state.encryptedMoisture == st.encryptedMoisture
  {
    var c1 := [BuildGrant];
    if rp.grant.Err? then DecryptAbort(st, rp.grant.error, c1)
    else
      var c2 := c1 + [SignTypedData];
      if rp.signature.Err? then DecryptAbort(st, rp.signature.error, c2)
      else
        var c3 := c2 + [UserDecrypt(h, s.Contract(), s.User(), SignatureForDecrypt(s.chainId, rp.signature.value))];
        if rp.decrypted.Err? then DecryptAbort(st, rp.decrypted.error, c3)
        else
          var v := DecryptedValue(rp.decrypted.value, h);
          Step(st.(decryptedMoisture := Some(v), message := Some(DecryptedMessage(v))), Resolved, c3)
  }

  // ---------------------------------------------------------------------------
  // loadEncryptedMoisture

  /** Replies to the calls `loadEncryptedMoisture` may make. */
  datatype LoadReplies = LoadReplies(
    blockNumber: Result<nat, Failure>,
    code: Result<string, Failure>,
    initialized: Result<bool, Failure>,
    handle: Result<string, Failure>)

  /** Everything `loadEncryptedMoisture` needs is configured. */
  predicate LoadReady(s: Session) {
    Present(s.contractAddress) && s.hasProvider && Present(s.address)
  }

  /** The text after "Error loading moisture: " for a caught error. */
  function LoadErrorText(e: Failure, chainId: int): (t: string)
    ensures chainId == Provider.LocalChainId && (e.code.UnknownError? || e.code.InternalRpcError?)
      ==> t == MsgHardhatDown
    ensures chainId == Provider.LocalChainId && Contains(e.message, "Failed to fetch") ==> t == MsgHardhatDown
    ensures chainId != Provider.LocalChainId && e.code == OtherCode && Contains(e.message, "Failed to fetch")
      ==> t == MsgNetworkFailed
    ensures chainId != Provider.LocalChainId && (e.code.UnknownError? || e.code.InternalRpcError?)
      ==> t == "Network error: " + (if e.message != "" then e.message else "Failed to connect to blockchain")
    ensures e.code == OtherCode && !Contains(e.message, "Failed to fetch") ==> t == MessageText(e)
  {
    if e.code == UnknownError || e.code == InternalRpcError then
      if chainId == Provider.LocalChainId then MsgHardhatDown
      else "Network error: " + (if e.message != "" then e.message else "Failed to connect to blockchain")
    else if Contains(e.message, "Failed to fetch") then
      if chainId == Provider.LocalChainId then MsgHardhatDown else MsgNetworkFailed
    else MessageText(e)
  }

  /** The outer catch: the message reports the error; the promise still resolves. */
  function LoadAbort(st: State, e: Failure, chainId: int, calls: seq<Call>): Step {
    Step(st.(isLoading := false, message := Some("Error loading moisture: " + LoadErrorText(e, chainId))), Resolved, calls)
  }

  /** `loadEncryptedMoisture()` from state `st`. */
  function LoadStep(st: State, s: Session, rp: LoadReplies): (r: Step)
    ensures r.outcome == Resolved
    ensures !LoadReady(s) ==> r.state == st && r.calls == []
    ensures LoadReady(s) ==> !r.state.isLoading
    ensures LoadReady(s) && rp.blockNumber.Ok? && rp.code.Ok? && !NotDeployed(rp.code.value)
      && rp.initialized == Ok(true) && rp.handle.Ok?
      ==> r.state == st.(isLoading := false, encryptedMoisture := Some(rp.handle.value))
  {
    if !LoadReady(s) then Step(st, Resolved, [])
    else
      var done := st.(isLoading := false);
      var c1 := [GetBlockNumber];
      if rp.blockNumber.Err? then
        if s.chainId == Provider.LocalChainId then Step(done.(message := Some(MsgHardhatDown)), Resolved, c1)
        else LoadAbort(st, rp.blockNumber.error, s.chainId, c1)
      else
        var c2 := c1 + [GetCode(s.Contract())];
        if rp.code.Err? then LoadAbort(st, rp.code.error, s.chainId, c2)
        else if NotDeployed(rp.code.value) then
          Step(done.(message := Some(NotDeployedMessage(s.Contract())), encryptedMoisture := None), Resolved, c2)
        else
          var c3 := c2 + [HasInitialized(s.User())];
          if rp.initialized.Err? then LoadAbort(st, rp.initialized.error, s.chainId, c3)
          else if !rp.initialized.value then
            Step(done.(encryptedMoisture := None, decryptedMoisture := None), Resolved, c3)
          else
            var c4 := c3 + [GetHandle(s.User())];
            if rp.handle.Err? then LoadAbort(st, rp.handle.error, s.chainId, c4)
            else Step(done.(encryptedMoisture := Some(rp.handle.value)), Resolved, c4)
  }

  // ---------------------------------------------------------------------------
  // The hook instance

  /** One mounted `useSoilMoisture` hook. */
  class Hook {
    const session: Session
    var encryptedMoisture: Option<string>
    var decryptedMoisture: Option<nat>
    var isLoading: bool
    var message: Option<string>

    /** The four state fields as one value. */
    function Snapshot(): State
      reads this
    {
      State(encryptedMoisture, decryptedMoisture, isLoading, message)
    }

    /** A freshly mounted hook: nothing cached, not loading, no message. */
    constructor (session: Session)
      ensures this.session == session && Snapshot() == Initial
    {
      this.session := session;
      encryptedMoisture, decryptedMoisture := None, None;
      isLoading, message := false, None;
    }

    /** `recordMoisture(moisture)`. */
    method RecordMoisture(moisture: Number, replies: RecordReplies) returns (outcome: Outcome, calls: seq<Call>)
      modifies this
      ensures var r := RecordStep(old(Snapshot()), session, moisture, replies);
        Snapshot() == r.state && outcome == r.outcome && calls == r.calls
    {
      var pre := RecordPrecondition(session, moisture);
      if pre.Some? {
        message := Some(pre.value);
        return Rejected(Thrown(pre.value)), [];
      }
      var contract, user := session.Contract(), session.User();
      isLoading := true;
      message := Some("Encrypting soil moisture value...");
      var failure: Option<Failure> := None;
      calls := [Encrypt(contract, user, moisture)];
      if replies.encrypt.Err? {
        failure := Some(replies.encrypt.error);
      } else {
        var encrypted := replies.encrypt.value;
        message := Some("Submitting to blockchain...");
        calls := calls + [GetCode(contract)];
        if replies.code.Err? {
          failure := Some(replies.code.error);
        } else if NotDeployed(replies.code.value) {
          failure := Some(Thrown(NotDeployedMessage(contract)));
        } else if !(|encrypted.handles| > 0 && |encrypted.inputProof| > 0) {
          failure := Some(Thrown(MsgMissingHandle));
        } else {
          calls := calls + [Submit(encrypted.handles[0], encrypted.inputProof, GasLimit)];
          if replies.submit.Err? {
            failure := Some(replies.submit.error);
          } else {
            message := Some(MsgRefreshing);
            calls := calls + [SettleWait(SettleDelayMs)];
            var more := Refresh(replies);
            RefreshCallsFrom(Snapshot(), session, replies, calls);
            calls := calls + more;
          }
        }
      }
      if failure.Some? {
        message := Some("Error: " + ReasonText(failure.value));
        outcome := Rejected(failure.value);
      } else {
        outcome := Resolved;
      }
      isLoading := false;
    }

    /** The nested refresh of `recordMoisture`: every failure is caught here. */
    method Refresh(replies: RecordReplies) returns (calls: seq<Call>)
      requires message == Some(MsgRefreshing)
      modifies this
      ensures var r := RefreshStep(old(Snapshot()), session, replies, []);
        encryptedMoisture == r.state.encryptedMoisture && message == r.state.message && calls == r.calls
      ensures decryptedMoisture == old(decryptedMoisture) && isLoading == old(isLoading)
    {
      var user := session.User();
      calls := [GetCode(session.Contract())];
      if replies.refreshCode.Err? {
        message := Some(MsgRefreshFailed);
      } else if replies.refreshCode.value != "" && |replies.refreshCode.value| > 2 {
        calls := calls + [HasInitialized(user)];
        if replies.refreshInitialized.Err? {
          message := Some(MsgRefreshFailed);
        } else if replies.refreshInitialized.value {
          calls := calls + [GetHandle(user)];
          if replies.refreshHandle.Err? {
            message := Some(MsgRefreshFailed);
          } else {
            encryptedMoisture := Some(ToLower(replies.refreshHandle.value));
            message := Some(MsgRecorded);
          }
        } else {
          message := Some(MsgInitCheckFailed);
        }
      }
    }

    /** `decryptMoisture()`. */
    method DecryptMoisture(replies: DecryptReplies) returns (outcome: Outcome, calls: seq<Call>)
      modifies this
      ensures var r := DecryptStep(old(Snapshot()), session, replies);
        Snapshot() == r.state && outcome == r.outcome && calls == r.calls
    {
      calls := [];
      if !(Present(session.contractAddress) && session.hasProvider && session.hasFhevm
           && session.hasSigner && Present(session.address)) {
        message := Some(MsgMissingRequirements);
        return Resolved, calls;
      }
      var user := session.User();
      message := Some("Checking permissions and fetching latest encrypted moisture...");
      var failure: Option<Failure> := None;
      calls := calls + [HasInitialized(user)];
      if replies.initialized.Err? {
        failure := Some(replies.initialized.error);
      } else if !replies.initialized.value {
        failure := Some(Thrown(MsgNotRecorded));
      } else {
        calls := calls + [GetHandle(user)];
        if replies.handle.Err? {
          failure := Some(replies.handle.error);
        } else {
          var handle := NormalizeHandle(replies.handle.value);
          if handle == "" || handle == "0x" || |handle| != HandleLength {
            failure := Some(Thrown(InvalidHandleMessage(handle)));
          } else {
            encryptedMoisture := Some(handle);
            message := Some("Decrypting soil moisture value...");
            var more;
            outcome, more := RequestDecryption(handle, replies);
            return outcome, calls + more;
          }
        }
      }
      message := Some(DecryptErrorMessage(MessageText(failure.value)));
      outcome := Rejected(failure.value);
    }

    /** Grant, signature and coprocessor request of `decryptMoisture`, for an accepted
        handle already stored in `encryptedMoisture`. */
    method RequestDecryption(handle: string, replies: DecryptReplies) returns (outcome: Outcome, calls: seq<Call>)
      modifies this
      ensures var r := Authorize(old(Snapshot()), session, handle, replies);
        Snapshot() == r.state && outcome == r.outcome && calls == r.calls
    {
      var failure: Option<Failure> := None;
      calls := [BuildGrant];
      if replies.grant.Err? {
        failure := Some(replies.grant.error);
      } else {
        calls := calls + [SignTypedData];
        if replies.signature.Err? {
          failure := Some(replies.signature.error);
        } else {
          var signature := replies.signature.value;
          if session.chainId == Provider.LocalChainId {
            signature := RemoveFirst(signature, "0x");
          }
          calls := calls + [UserDecrypt(handle, session.Contract(), session.User(), signature)];
          if replies.decrypted.Err? {
            failure := Some(replies.decrypted.error);
          } else {
            var decrypted := if handle in replies.decrypted.value then replies.decrypted.value[handle] else 0;
            decryptedMoisture := Some(decrypted);
            message := Some(DecryptedMessage(decrypted));
          }
        }
      }
      if failure.Some? {
        message := Some(DecryptErrorMessage(MessageText(failure.value)));
        outcome := Rejected(failure.value);
      } else {
        outcome := Resolved;
      }
    }

    /** `loadEncryptedMoisture()`. */
    method LoadEncryptedMoisture(replies: LoadReplies) returns (outcome: Outcome, calls: seq<Call>)
      modifies this
      ensures var r := LoadStep(old(Snapshot()), session, replies);
        Snapshot() == r.state && outcome == r.outcome && calls == r.calls
    {
      calls := [];
      outcome := Resolved;
      if !(Present(session.contractAddress) && session.hasProvider && Present(session.address)) {
        return;
      }
      var contract, user := session.Contract(), session.User();
      isLoading := true;
      var failure: Option<Failure> := None;
      calls := calls + [GetBlockNumber];
      if replies.blockNumber.Err? {
        if session.chainId == Provider.LocalChainId {
          message := Some(MsgHardhatDown);
        } else {
          failure := Some(replies.blockNumber.error);
        }
      } else {
        calls := calls + [GetCode(contract)];
        if replies.code.Err? {
          failure := Some(replies.code.error);
        } else if NotDeployed(replies.code.value) {
          message := Some(NotDeployedMessage(contract));
          encryptedMoisture := None;
        } else {
          calls := calls + [HasInitialized(user)];
          if replies.initialized.Err? {
            failure := Some(replies.initialized.error);
          } else if !replies.initialized.value {
            encryptedMoisture := None;
            decryptedMoisture := None;
          } else {
            calls := calls + [GetHandle(user)];
            if replies.handle.Err? {
              failure := Some(replies.handle.error);
            } else {
              encryptedMoisture := Some(replies.handle.value);
            }
          }
        }
      }
      if failure.Some? {
        message := Some("Error loading moisture: " + LoadErrorText(failure.value, session.chainId));
      }
      isLoading := false;
    }
  }
}
