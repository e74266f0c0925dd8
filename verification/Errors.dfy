/**
 The error values that the code tells apart. Error texts are opaque strings; `Wrapped` stands for any
 error with an Unwrap method.
 */
module Errors {
  import opened Wrappers

  datatype Error =
    | APIError(code: string, text: string)
    | TerminalError(inner: Error)
    | Wrapped(text: string, inner: Error)
    | NotFound
    | ResourceTerminal
    | SecretTypeNotSupported
    | SecretNotFound
    | OtherError(text: string)

  /** ackerr.WrapPostCreateError, a library call. */
  function PostCreateError(err: Error): Error {
    Wrapped(Text(err), err)
  }

  /** err.Error(). */
  function Text(err: Error): string {
    match err
    case APIError(_, text) => text
    case TerminalError(inner) => Text(inner)
    case Wrapped(text, _) => text
    case NotFound => "resource not found"
    case ResourceTerminal => "resource is in terminal condition"
    case SecretTypeNotSupported => "only opaque secrets can be used"
    case SecretNotFound => "kubernetes secret not found"
    case OtherError(text) => text
  }

  /** errors.As with a smithy.APIError target: the first API error on the chain. */
  function AsAPIError(err: Error): (r: Option<Error>)
    ensures r.Some? ==> r.value.APIError?
  {
    match err
    case APIError(_, _) => Some(err)
    case TerminalError(inner) => AsAPIError(inner)
    case Wrapped(_, inner) => AsAPIError(inner)
    case _ => None
  }

  /** Errors that the AWS SDK can return; the ackerr values are made by the controller only. */
  predicate FromSDK(err: Error) {
    match err
    case APIError(_, _) => true
    case OtherError(_) => true
    case Wrapped(_, inner) => FromSDK(inner)
    case _ => false
  }

  /** The test with which sdkFind recognizes a network that is not there. */
  predicate IsNotFoundError(err: Error) {
    AsAPIError(err).Some? && AsAPIError(err).value.code == "ResourceNotFoundException"
  }

  /** errors.As with a *TerminalError target. */
  predicate HasTerminalError(err: Error) {
    match err
    case TerminalError(_) => true
    case Wrapped(_, inner) => HasTerminalError(inner)
    case _ => false
  }

  /** terminalAWSError: the API error, if there is one, carries the one configured terminal code. */
  predicate IsTerminalAWSError(err: Error) {
    AsAPIError(err).Some? && AsAPIError(err).value.code == "ValidationException"
  }

  /** The test of updateConditions that decides between a terminal and a recoverable error. */
  predicate IsTerminal(err: Error) {
    IsTerminalAWSError(err) || err == SecretTypeNotSupported || err == SecretNotFound || HasTerminalError(err)
  }

  /* ---- What these tests mean on the chain of an error ---- */

  /** The errors that errors.As visits, the outermost first. */
  function Chain(err: Error): (chain: seq<Error>)
    ensures chain != [] && chain[0] == err
  {
    match err
    case TerminalError(inner) => [err] + Chain(inner)
    case Wrapped(_, inner) => [err] + Chain(inner)
    case _ => [err]
  }

  /** Position `i` of the chain holds its first API error. */
  ghost predicate FirstAPIError(err: Error, i: nat) {
    i < |Chain(err)| && Chain(err)[i].APIError? && forall j :: 0 <= j < i ==> !Chain(err)[j].APIError?
  }

  /** There is an API error on the chain, and the first one has the code. */
  ghost predicate FirstCode(err: Error, code: string) {
    exists i: nat :: FirstAPIError(err, i) && Chain(err)[i].code == code
  }

  ghost predicate TerminalOnChain(err: Error) {
    exists i: nat :: i < |Chain(err)| && Chain(err)[i].TerminalError?
  }

  lemma {:induction false} FindsFirst(err: Error)
    ensures AsAPIError(err).Some? ==> exists i: nat :: FirstAPIError(err, i)
    ensures forall i: nat :: FirstAPIError(err, i) ==> AsAPIError(err) == Some(Chain(err)[i])
  {
    match err
    case TerminalError(inner) =>
      FindsFirst(inner);
      FirstShifts(err, inner);
    case Wrapped(_, inner) =>
      FindsFirst(inner);
      FirstShifts(err, inner);
    case APIError(_, _) =>
      assert FirstAPIError(err, 0);
    case _ =>
  }

  lemma FirstShifts(err: Error, inner: Error)
    requires Chain(err) == [err] + Chain(inner) && !err.APIError?
    ensures forall i: nat :: FirstAPIError(inner, i) ==> FirstAPIError(err, i + 1)
    ensures forall i: nat :: FirstAPIError(err, i) ==> i > 0 && FirstAPIError(inner, i - 1)
  {
    forall i: nat | FirstAPIError(inner, i) ensures FirstAPIError(err, i + 1) {
      forall j | 0 <= j < i + 1 ensures !Chain(err)[j].APIError? {
        assert j > 0 ==> Chain(err)[j] == Chain(inner)[j - 1];
      }
    }
    forall i: nat | FirstAPIError(err, i) ensures i > 0 && FirstAPIError(inner, i - 1) {
      forall j | 0 <= j < i - 1 ensures !Chain(inner)[j].APIError? {
        assert Chain(inner)[j] == Chain(err)[j + 1];
      }
    }
  }

  lemma {:induction false} FindsTerminal(err: Error)
    ensures HasTerminalError(err) <==> TerminalOnChain(err)
  {
    match err
    case TerminalError(_) =>
      assert Chain(err)[0].TerminalError?;
    case Wrapped(_, inner) =>
      FindsTerminal(inner);
      if TerminalOnChain(inner) {
        var i: nat :| i < |Chain(inner)| && Chain(inner)[i].TerminalError?;
        assert Chain(err)[i + 1].TerminalError?;
      }
      if TerminalOnChain(err) {
        var i: nat :| i < |Chain(err)| && Chain(err)[i].TerminalError?;
        assert Chain(inner)[i - 1].TerminalError?;
      }
    case _ =>
  }

  lemma CodeIsFirst(err: Error, code: string)
    ensures FirstCode(err, code) <==> AsAPIError(err).Some? && AsAPIError(err).value.code == code
  {
    FindsFirst(err);
  }

  /** The terminal errors: ValidationException first on the chain, a TerminalError on it, or a bare secret error. */
  lemma TerminalExactly(err: Error)
    ensures IsTerminal(err)
            <==> FirstCode(err, "ValidationException") || TerminalOnChain(err)
                 || err == SecretTypeNotSupported || err == SecretNotFound
    ensures FromSDK(err) ==> (IsTerminal(err) <==> FirstCode(err, "ValidationException"))
  {
    CodeIsFirst(err, "ValidationException");
    FindsTerminal(err);
    SDKHasNoTerminal(err);
  }

  lemma {:induction false} SDKHasNoTerminal(err: Error)
    ensures FromSDK(err) ==> !HasTerminalError(err) && err != SecretTypeNotSupported && err != SecretNotFound
  {
    match err
    case Wrapped(_, inner) => SDKHasNoTerminal(inner);
    case _ =>
  }

  lemma NotFoundExactly(err: Error)
    ensures IsNotFoundError(err) <==> FirstCode(err, "ResourceNotFoundException")
  {
    CodeIsFirst(err, "ResourceNotFoundException");
  }
}
