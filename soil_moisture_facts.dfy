/** Properties of the three soil-moisture workflows, stated on their step functions,
    and their connection with the contract's storage. */
module SoilMoistureFacts {

  import opened Wrappers
  import opened Text
  import opened SoilMoisture
  import Provider
  import Ledger

  // ---------------------------------------------------------------------------
  // recordMoisture

  /** The transaction was confirmed: every check passed, encryption produced a handle
      and a proof, the code was there and the submission succeeded. */
  predicate Confirmed(s: Session, m: Number, rp: RecordReplies) {
    RecordPrecondition(s, m) == None && rp.encrypt.Ok? && rp.code.Ok?
    && !NotDeployed(rp.code.value) && Usable(rp.encrypt.value) && rp.submit.Ok?
  }

  /** A failed precondition (configuration or range) throws its own message, makes no
      call, and changes nothing but the message: `isLoading`, the cached handle and the
      decrypted value stay as they were. */
  lemma RecordPreconditionFailure(st: State, s: Session, m: Number, rp: RecordReplies)
    requires RecordPrecondition(s, m).Some?
    ensures var msg := RecordPrecondition(s, m).value;
      var r := RecordStep(st, s, m, rp);
      r.outcome == Rejected(Thrown(msg)) && r.calls == []
      && r.state == st.(message := Some(msg))
  {
  }

  /** The bounds 0 and 100, fractional values and NaN all pass the hook's checks once
      the session is complete; -1, 101 and the infinities do not. */
  lemma RecordRangeBoundary(s: Session)
    requires RecordReady(s)
    ensures RecordPrecondition(s, Finite(0.0)) == None
    ensures RecordPrecondition(s, Finite(100.0)) == None
    ensures RecordPrecondition(s, Finite(65.5)) == None
    ensures RecordPrecondition(s, NaN) == None
    ensures RecordPrecondition(s, Finite(-1.0)) == Some(MsgOutOfRange)
    ensures RecordPrecondition(s, Finite(100.5)) == Some(MsgOutOfRange)
    ensures RecordPrecondition(s, Finite(101.0)) == Some(MsgOutOfRange)
    ensures RecordPrecondition(s, PosInfinity) == Some(MsgOutOfRange)
    ensures RecordPrecondition(s, NegInfinity) == Some(MsgOutOfRange)
  {
  }

  /** The call rejects exactly when the transaction was not confirmed: after a
      confirmed transaction no refresh problem makes it throw. Every exit after the
      checks leaves `isLoading` false, and the decrypted value is never touched. */
  lemma {:induction false} RecordOutcome(st: State, s: Session, m: Number, rp: RecordReplies)
    ensures var r := RecordStep(st, s, m, rp);
      (r.outcome == Resolved <==> Confirmed(s, m, rp))
      && r.state.decryptedMoisture == st.decryptedMoisture
      && (RecordPrecondition(s, m) == None ==> !r.state.isLoading)
  {
  }

  /** On a rejection after the checks, the message is "Error: " and the error's reason,
      else its message, else its text; the cached handle is unchanged. */
  lemma RecordRejectionMessage(st: State, s: Session, m: Number, rp: RecordReplies)
    requires RecordPrecondition(s, m) == None
    ensures var r := RecordStep(st, s, m, rp);
      r.outcome.Rejected? ==>
        r.state.message == Some("Error: " + ReasonText(r.outcome.error))
        && r.state.encryptedMoisture == st.encryptedMoisture
  {
  }

  /** After the checks, the call rejects with the error of the first reply that failed,
      rethrown unchanged, or with the hook's own error for undeployed code or an unusable
      encryption. */
  lemma RecordRethrows(st: State, s: Session, m: Number, rp: RecordReplies)
    requires RecordPrecondition(s, m) == None
    ensures var r := RecordStep(st, s, m, rp);
      (rp.encrypt.Err? ==> r.outcome == Rejected(rp.encrypt.error))
      && (rp.encrypt.Ok? && rp.code.Err? ==> r.outcome == Rejected(rp.code.error))
      && (rp.encrypt.Ok? && rp.code.Ok? && NotDeployed(rp.code.value) ==>
            r.outcome == Rejected(Thrown(NotDeployedMessage(s.Contract()))))
      && (rp.encrypt.Ok? && rp.code.Ok? && !NotDeployed(rp.code.value) && !Usable(rp.encrypt.value) ==>
            r.outcome == Rejected(Thrown(MsgMissingHandle)))
      && ((rp.encrypt.Ok? && rp.code.Ok? && !NotDeployed(rp.code.value) && Usable(rp.encrypt.value)
           && rp.submit.Err?) ==> r.outcome == Rejected(rp.submit.error))
  {
  }

  /** What a confirmed transaction leaves behind, by outcome of the refresh. Only a
      fully successful refresh replaces the cached handle, with the lower-cased one. */
  lemma RecordRefresh(st: State, s: Session, m: Number, rp: RecordReplies)
    requires Confirmed(s, m, rp)
    ensures var r := RecordStep(st, s, m, rp);
      (rp.refreshCode.Err? ==>
        r.state.message == Some(MsgRefreshFailed) && r.state.encryptedMoisture == st.encryptedMoisture)
      && (rp.refreshCode.Ok? && NotDeployed(rp.refreshCode.value) ==>
        r.state.message == Some(MsgRefreshing) && r.state.encryptedMoisture == st.encryptedMoisture)
      && (rp.refreshCode.Ok? && !NotDeployed(rp.refreshCode.value) && rp.refreshInitialized == Ok(false) ==>
        r.state.message == Some(MsgInitCheckFailed) && r.state.encryptedMoisture == st.encryptedMoisture)
      && (rp.refreshCode.Ok? && !NotDeployed(rp.refreshCode.value) && rp.refreshInitialized.Err? ==>
        r.state.message == Some(MsgRefreshFailed) && r.state.encryptedMoisture == st.encryptedMoisture)
      && (rp.refreshCode.Ok? && !NotDeployed(rp.refreshCode.value) && rp.refreshInitialized == Ok(true) ==>
        if rp.refreshHandle.Ok? then
          r.state.message == Some(MsgRecorded) && r.state.encryptedMoisture == Some(ToLower(rp.refreshHandle.value))
        else
          r.state.message == Some(MsgRefreshFailed) && r.state.encryptedMoisture == st.encryptedMoisture)
  {
    if rp.refreshCode.Ok? {
      NotDeployedIsShortCode(rp.refreshCode.value);
    }
  }

  /** Nothing reaches the contract unless the encryption gave a handle and a non-empty
      proof and the code check passed; what is submitted is the first handle and the
      proof, with the fixed gas limit. A rejected value is never even encrypted. */
  lemma RecordSubmission(st: State, s: Session, m: Number, rp: RecordReplies)
    ensures var r := RecordStep(st, s, m, rp);
      (OutOfRange(m) ==> r.calls == [])
      && forall c :: c in r.calls && c.Submit? ==>
        RecordPrecondition(s, m) == None && rp.encrypt.Ok? && Usable(rp.encrypt.value)
        && rp.code.Ok? && !NotDeployed(rp.code.value)
        && c == Submit(rp.encrypt.value.handles[0], rp.encrypt.value.inputProof, GasLimit)
  {
  }

  /** After a confirmed transaction the hook waits the settle delay before it reads the
      contract again: encrypt, code check, submit, wait, then the refresh reads. */
  lemma RecordCallOrder(st: State, s: Session, m: Number, rp: RecordReplies)
    requires Confirmed(s, m, rp)
    ensures var r := RecordStep(st, s, m, rp);
      |r.calls| >= 5
      && r.calls[..5] == [Encrypt(s.Contract(), s.User(), m), GetCode(s.Contract()),
                          Submit(rp.encrypt.value.handles[0], rp.encrypt.value.inputProof, GasLimit),
                          SettleWait(SettleDelayMs), GetCode(s.Contract())]
  {
  }

  // ---------------------------------------------------------------------------
  // decryptMoisture

  /** A missing requirement only sets a message and resolves: unlike `recordMoisture`,
      nothing is thrown and nothing is called. */
  lemma DecryptMissingRequirements(st: State, s: Session, rp: DecryptReplies)
    requires !DecryptReady(s)
    ensures DecryptStep(st, s, rp) == Step(st.(message := Some(MsgMissingRequirements)), Resolved, [])
  {
  }

  /** An owner with no record gets the not-recorded error, classified like any other
      message, and the handle is never read. */
  lemma DecryptUninitialized(st: State, s: Session, rp: DecryptReplies)
    requires DecryptReady(s) && rp.initialized == Ok(false)
    ensures DecryptStep(st, s, rp) ==
      Step(st.(message := Some(DecryptErrorMessage(MsgNotRecorded))), Rejected(Thrown(MsgNotRecorded)),
           [HasInitialized(s.User())])
  {
  }

  /** The handle check accepts exactly the strings of 66 characters. */
  lemma AcceptedHandleIsLength66(h: string)
    ensures AcceptedHandle(h) <==> |h| == 66
  {
  }

  /** Normalisation lower-cases a "0x"-prefixed handle and keeps its length; any other
      handle is kept as it is. */
  lemma NormalizeHandleFacts(h: string)
    ensures |NormalizeHandle(h)| == |h|
    ensures StartsWith(h, "0x") ==> NormalizeHandle(h) == ToLower(h)
    ensures !StartsWith(h, "0x") ==> NormalizeHandle(h) == h
  {
  }

  /** A handle whose normalised length is not 66 is rejected with the invalid-format
      error: nothing is sent to the coprocessor and the cached handle is kept. Any
      handle that does reach the coprocessor is the normalised one, of length 66. */
  lemma DecryptHandleValidation(st: State, s: Session, rp: DecryptReplies)
    ensures var r := DecryptStep(st, s, rp);
      (forall c :: c in r.calls && c.UserDecrypt? ==>
         rp.handle.Ok? && c.handle == NormalizeHandle(rp.handle.value) && |c.handle| == 66
         && c.signature == SignatureForDecrypt(s.chainId, rp.signature.value))
      && (DecryptReady(s) && rp.initialized == Ok(true) && rp.handle.Ok?
          && |NormalizeHandle(rp.handle.value)| != 66 ==>
            r.outcome == Rejected(Thrown(InvalidHandleMessage(NormalizeHandle(rp.handle.value))))
            && r.state.encryptedMoisture == st.encryptedMoisture
            && forall c :: c in r.calls ==> !c.UserDecrypt?)
  {
  }

  /** An accepted handle is stored before signing: even when signing or decryption
      fails, the cached handle is the normalised one. On success the decrypted value is
      the coprocessor's entry for that handle, or 0 when there is none. */
  lemma DecryptStoresHandleFirst(st: State, s: Session, rp: DecryptReplies)
    requires DecryptReady(s) && rp.initialized == Ok(true) && rp.handle.Ok?
    requires |NormalizeHandle(rp.handle.value)| == 66
    ensures var h := NormalizeHandle(rp.handle.value);
      var r := DecryptStep(st, s, rp);
      r.state.encryptedMoisture == Some(h)
      && (r.outcome == Resolved <==> rp.grant.Ok? && rp.signature.Ok? && rp.decrypted.Ok?)
      && (r.outcome == Resolved ==>
        r.state.decryptedMoisture == Some(if h in rp.decrypted.value then rp.decrypted.value[h] else 0))
      && (r.outcome.Rejected? ==> r.state.decryptedMoisture == st.decryptedMoisture)
  {
  }

  /** The signature is changed only on the local chain, and there a leading "0x" is
      dropped; a signature without "0x" is never changed. */
  lemma SignatureForDecryptFacts(chainId: int, sig: string)
    ensures chainId != Provider.LocalChainId ==> SignatureForDecrypt(chainId, sig) == sig
    ensures chainId == Provider.LocalChainId && StartsWith(sig, "0x") ==> SignatureForDecrypt(chainId, sig) == sig[2..]
    ensures !Contains(sig, "0x") ==> SignatureForDecrypt(chainId, sig) == sig
  {
    RemoveFirstFacts(sig, "0x");
  }

  /** The error classification: the permission explanation exactly when the message
      mentions "authorized", otherwise "Error decrypting: " and the message. */
  lemma DecryptErrorClassification(msg: string)
    ensures DecryptErrorMessage(msg) == MsgPermission <==> Contains(msg, "authorized")
    ensures !Contains(msg, "authorized") ==> DecryptErrorMessage(msg) == "Error decrypting: " + msg
  {
    if Contains(msg, "not authorized") {
      NotAuthorizedContainsAuthorized(msg);
    }
    assert ("Error decrypting: " + msg)[0] == 'E';
    assert PermissionHeadline[0] == 'D' == MsgPermission[0];
  }

  /** Every failure after the requirement check is rethrown unchanged, with the
      classified message. */
  lemma DecryptRethrows(st: State, s: Session, rp: DecryptReplies)
    ensures var r := DecryptStep(st, s, rp);
      r.outcome.Rejected? ==> r.state.message == Some(DecryptErrorMessage(MessageText(r.outcome.error)))
  {
  }

  /** The error a decryption rejects with is the first failing reply's, rethrown
      unchanged, or the hook's own error for an owner without a record or a handle of
      the wrong length. */
  lemma DecryptRejectsWithFailingReply(st: State, s: Session, rp: DecryptReplies)
    requires DecryptReady(s)
    ensures var r := DecryptStep(st, s, rp);
      (rp.initialized.Err? ==> r.outcome == Rejected(rp.initialized.error))
      && (rp.initialized == Ok(false) ==> r.outcome == Rejected(Thrown(MsgNotRecorded)))
      && (rp.initialized == Ok(true) && rp.handle.Err? ==> r.outcome == Rejected(rp.handle.error))
      && (rp.initialized == Ok(true) && rp.handle.Ok? && !AcceptedHandle(NormalizeHandle(rp.handle.value)) ==>
            r.outcome == Rejected(Thrown(InvalidHandleMessage(NormalizeHandle(rp.handle.value)))))
  {
  }

  /** Once the handle is accepted, the rejection is the error of the first of grant,
      signature and coprocessor replies that failed. */
  lemma AuthorizeRejectsWithFailingReply(st: State, s: Session, h: string, rp: DecryptReplies)
    ensures var r := Authorize(st, s, h, rp);
      (rp.grant.Err? ==> r.outcome == Rejected(rp.grant.error))
      && (rp.grant.Ok? && rp.signature.Err? ==> r.outcome == Rejected(rp.signature.error))
      && (rp.grant.Ok? && rp.signature.Ok? && rp.decrypted.Err? ==> r.outcome == Rejected(rp.decrypted.error))
      && (rp.grant.Ok? && rp.signature.Ok? && rp.decrypted.Ok? ==> r.outcome == Resolved)
  {
  }

  // ---------------------------------------------------------------------------
  // loadEncryptedMoisture

  /** Loading never rejects; without a contract, provider or address it does nothing;
      otherwise it ends with `isLoading` false and never changes the decrypted value
      except to clear it for an owner without a record. */
  lemma LoadOutcome(st: State, s: Session, rp: LoadReplies)
    ensures var r := LoadStep(st, s, rp);
      r.outcome == Resolved
      && (!LoadReady(s) ==> r.state == st && r.calls == [])
      && (LoadReady(s) ==> !r.state.isLoading)
      && (r.state.decryptedMoisture == st.decryptedMoisture || r.state.decryptedMoisture == None)
  {
  }

  /** Undeployed code clears the cached handle and says so; an uninitialised owner
      clears both the cached handle and the decrypted value. */
  lemma LoadClears(st: State, s: Session, rp: LoadReplies)
    requires LoadReady(s) && rp.blockNumber.Ok? && rp.code.Ok?
    ensures var r := LoadStep(st, s, rp);
      (NotDeployed(rp.code.value) ==>
        r.state.encryptedMoisture == None && r.state.message == Some(NotDeployedMessage(s.Contract())))
      && (!NotDeployed(rp.code.value) && rp.initialized == Ok(false) ==>
        r.state.encryptedMoisture == None && r.state.decryptedMoisture == None && r.state.message == st.message)
  {
  }

  /** The outer catch of loading reported error `e`: the message names it, loading is
      over, and the cached handle and the decrypted value are kept. */
  predicate LoadReported(r: Step, st: State, e: Failure, chainId: int) {
    r.state == st.(isLoading := false, message := Some("Error loading moisture: " + LoadErrorText(e, chainId)))
  }

  /** Every failing reply is caught: off chain 31337 a failed block-number request, and
      everywhere a failed code, initialisation or handle request, is reported through
      `LoadErrorText` with the handle kept. On chain 31337 a failed block-number request
      only says the node is down. */
  lemma LoadFailures(st: State, s: Session, rp: LoadReplies)
    requires LoadReady(s)
    ensures var r := LoadStep(st, s, rp);
      (rp.blockNumber.Err? && s.chainId == Provider.LocalChainId ==>
        r.state == st.(isLoading := false, message := Some(MsgHardhatDown)))
      && (rp.blockNumber.Err? && s.chainId != Provider.LocalChainId ==>
        LoadReported(r, st, rp.blockNumber.error, s.chainId))
      && (rp.blockNumber.Ok? && rp.code.Err? ==> LoadReported(r, st, rp.code.error, s.chainId))
      && (rp.blockNumber.Ok? && rp.code.Ok? && !NotDeployed(rp.code.value) && rp.initialized.Err? ==>
        LoadReported(r, st, rp.initialized.error, s.chainId))
      && ((rp.blockNumber.Ok? && rp.code.Ok? && !NotDeployed(rp.code.value) && rp.initialized == Ok(true)
           && rp.handle.Err?) ==> LoadReported(r, st, rp.handle.error, s.chainId))
  {
  }

  /** The replies an honest chain gives `loadEncryptedMoisture` for `owner` over `store`,
      with the contract deployed as `code`. */
  function HonestLoadReplies(store: Ledger.Store, owner: string, block: nat, code: string): LoadReplies {
    LoadReplies(Ok(block), Ok(code), Ok(Ledger.HasInitialized(store, owner)), Ok(Ledger.GetHandle(store, owner)))
  }

  /** Round trip for loading: after any sequence of records, loading against the
      contract's storage caches the handle of the caller's latest record exactly as the
      getter returns it; a caller without a record has both cached values cleared. */
  lemma LoadAfterRecords(st: State, s: Session, ws: seq<Ledger.Write>, block: nat, code: string)
    requires LoadReady(s) && !NotDeployed(code)
    ensures var store := Ledger.ApplyAll(Ledger.Deployed, ws);
      var r := LoadStep(st, s, HonestLoadReplies(store, s.User(), block, code));
      match Ledger.LastBy(ws, s.User())
      case Some(w) =>
        r.state == st.(isLoading := false, encryptedMoisture := Some(w.handle))
        && r.state.encryptedMoisture == Some(Ledger.GetHandle(store, s.User()))
      case None => r.state.encryptedMoisture == None && r.state.decryptedMoisture == None
  {
    Ledger.ApplyAllKeepsLatest(Ledger.Deployed, ws, s.User());
    Ledger.GetHandleAfterRecords(ws, s.User());
  }

  // ---------------------------------------------------------------------------
  // All three workflows

  /** Starting idle, every workflow ends idle: `isLoading` is never left set. */
  lemma WorkflowsEndIdle(st: State, s: Session, m: Number, rr: RecordReplies, dr: DecryptReplies, lr: LoadReplies)
    requires !st.isLoading
    ensures !RecordStep(st, s, m, rr).state.isLoading
    ensures !DecryptStep(st, s, dr).state.isLoading
    ensures !LoadStep(st, s, lr).state.isLoading
  {
  }

  // ---------------------------------------------------------------------------
  // Against the contract's storage

  /** The replies an honest world gives `decryptMoisture` for `owner` over `store`:
      the contract's answers and a coprocessor that maps the owner's handle to its
      recorded value. */
  function HonestDecryptReplies(store: Ledger.Store, owner: string, signature: string): DecryptReplies {
    DecryptReplies(
      Ok(Ledger.HasInitialized(store, owner)),
      Ok(Ledger.GetHandle(store, owner)),
      Ok(()),
      Ok(signature),
      Ok(if owner in store then map[store[owner].handle := store[owner].value] else map[]))
  }

  /** Lower-casing leaves a string without upper-case ASCII letters unchanged. */
  lemma ToLowerOfLower(h: string)
    requires forall i :: 0 <= i < |h| ==> !('A' <= h[i] <= 'Z')
    ensures ToLower(h) == h
  {
  }

  /** A handle the contract stores is left as it is by normalisation and passes the
      length check. */
  lemma WellFormedHandleIsNormal(h: string)
    requires Ledger.WellFormedHandle(h)
    ensures NormalizeHandle(h) == h && AcceptedHandle(h)
  {
    forall i | 0 <= i < |h| ensures !('A' <= h[i] <= 'Z') {
      if i >= 2 {
        assert h[i] in "0123456789abcdef";
      } else {
        assert h[..2] == "0x";
        assert h[i] == "0x"[i];
      }
    }
    ToLowerOfLower(h);
  }

  /** Decrypting as `owner` against a well-formed store: a recorded owner gets the
      recorded value and caches the stored handle; an owner without a record is told
      to record first. */
  lemma DecryptHonest(st: State, s: Session, store: Ledger.Store, sig: string)
    requires DecryptReady(s) && Ledger.WellFormed(store)
    ensures var r := DecryptStep(st, s, HonestDecryptReplies(store, s.User(), sig));
      if s.User() in store then
        r.outcome == Resolved && r.state.decryptedMoisture == Some(store[s.User()].value)
        && r.state.encryptedMoisture == Some(store[s.User()].handle)
      else r.outcome == Rejected(Thrown(MsgNotRecorded))
  {
    if s.User() in store {
      WellFormedHandleIsNormal(store[s.User()].handle);
    }
  }

  /** Round trip: whatever transactions were sent, by whichever owners and in whatever
      order, decrypting as `owner` yields the value of that owner's latest record; an
      owner without any record is told to record first. */
  lemma {:induction false} DecryptAfterRecords(st: State, s: Session, ws: seq<Ledger.Write>, sig: string)
    requires DecryptReady(s)
    requires forall w :: w in ws ==> Ledger.WellFormedHandle(w.handle)
    ensures var store := Ledger.ApplyAll(Ledger.Deployed, ws);
      var r := DecryptStep(st, s, HonestDecryptReplies(store, s.User(), sig));
      match Ledger.LastBy(ws, s.User())
      case Some(w) =>
        r.outcome == Resolved && r.state.decryptedMoisture == Some(w.value)
        && r.state.encryptedMoisture == Some(w.handle)
      case None => r.outcome == Rejected(Thrown(MsgNotRecorded))
  {
    var store := Ledger.ApplyAll(Ledger.Deployed, ws);
    Ledger.ApplyAllKeepsLatest(Ledger.Deployed, ws, s.User());
    Ledger.ApplyAllWellFormed(Ledger.Deployed, ws);
    DecryptHonest(st, s, store, sig);
  }

  /** Record, then decrypt: a confirmed record of an integer percentage sends that very
      number to be encrypted and submits the resulting ciphertext; once the contract
      stores the transaction's handle for the user, a decryption against honest replies
      resolves to the recorded value, whatever the record left in the hook's state. */
  lemma RecordThenDecrypt(st: State, s: Session, v: nat, rp: RecordReplies,
                          store: Ledger.Store, stored: string, sig: string)
    requires v <= 100 && Confirmed(s, Finite(v as real), rp)
    requires Ledger.WellFormed(store) && Ledger.WellFormedHandle(stored)
    ensures var rec := RecordStep(st, s, Finite(v as real), rp);
      var after := Ledger.Apply(store, Ledger.Write(s.User(), stored, v));
      var dec := DecryptStep(rec.state, s, HonestDecryptReplies(after, s.User(), sig));
      rec.outcome == Resolved
      && rec.calls[0] == Encrypt(s.Contract(), s.User(), Finite(v as real))
      && rec.calls[2] == Submit(rp.encrypt.value.handles[0], rp.encrypt.value.inputProof, GasLimit)
      && dec.outcome == Resolved && dec.state.decryptedMoisture == Some(v)
      && dec.state.encryptedMoisture == Some(stored)
  {
    var rec := RecordStep(st, s, Finite(v as real), rp);
    RecordCallOrder(st, s, Finite(v as real), rp);
    assert rec.calls[0] == rec.calls[..5][0] && rec.calls[2] == rec.calls[..5][2];
    var after := Ledger.Apply(store, Ledger.Write(s.User(), stored, v));
    assert Ledger.WellFormed(after);
    DecryptHonest(rec.state, s, after, sig);
  }
}
