/**
 * The password-change form of inspection_front
 * (inspection_front/src/components/ChangePasswordModal/ChangePasswordModal.jsx):
 * two guards in a fixed order, then one call.
 */
module ChangePasswordModal {
  import opened Wrappers
  import JsSemantics

  const MismatchMessage: string := "새 비밀번호가 일치하지 않습니다."
  const TooShortMessage: string := "새 비밀번호는 최소 6자 이상이어야 합니다."
  const FallbackMessage: string := "비밀번호 변경 중 오류가 발생했습니다."

  /** The body of `authAPI.changePassword`. */
  datatype PasswordChange = PasswordChange(currentPassword: string, newPassword: string, confirmNewPassword: string)

  /** The message shown, the error flag, and the request made, if any. */
  datatype Feedback = Feedback(message: string, isError: bool, request: Option<PasswordChange>)

  /**
   * `handleSubmit`: a confirmation that differs gives the mismatch error; a new
   * password shorter than six UTF-16 code units (`length`) gives the length error; only then is the
   * request made, and its answer's message is shown, or the error's message,
   * or the fallback when the error has none (`error.message || ...`, with an
   * absent message written as the empty string).
   */
  function HandleSubmit(current: string, newPassword: string, confirm: string,
                        api: Result<string, string>): (f: Feedback)
    ensures f.request.Some? <==> newPassword == confirm && JsSemantics.Utf16Length(newPassword) >= 6
    ensures f.request.Some? ==> f.request.value == PasswordChange(current, newPassword, confirm)
    ensures newPassword != confirm ==> f == Feedback(MismatchMessage, true, None)
    ensures newPassword == confirm && JsSemantics.Utf16Length(newPassword) < 6 ==> f == Feedback(TooShortMessage, true, None)
    ensures f.isError <==> f.request.None? || api.Failure?
  {
    if newPassword != confirm then Feedback(MismatchMessage, true, None)
    else if JsSemantics.Utf16Length(newPassword) < 6 then Feedback(TooShortMessage, true, None)
    else
      var request := Some(PasswordChange(current, newPassword, confirm));
      match api
      case Success(message) => Feedback(message, false, request)
      case Failure(message) => Feedback(if message == "" then FallbackMessage else message, true, request)
  }

  /** The mismatch is reported even when the new password is also too short. */
  lemma MismatchCheckedFirst(current: string, newPassword: string, confirm: string, api: Result<string, string>)
    requires newPassword != confirm && JsSemantics.Utf16Length(newPassword) < 6
    ensures HandleSubmit(current, newPassword, confirm, api).message == MismatchMessage
  {
  }

  /**
   * The length counts UTF-16 code units: three characters outside the Basic
   * Multilingual Plane (three emoji, say) are long enough, while any three
   * characters inside it are not.
   */
  lemma SupplementaryCharactersCountTwice(current: string, newPassword: string, api: Result<string, string>)
    requires |newPassword| == 3
    ensures (forall i :: 0 <= i < 3 ==> newPassword[i] as int > 0xFFFF) ==>
      HandleSubmit(current, newPassword, newPassword, api).request.Some?
    ensures (forall i :: 0 <= i < 3 ==> newPassword[i] as int <= 0xFFFF) ==>
      HandleSubmit(current, newPassword, newPassword, api).message == TooShortMessage
  {
  }

  /** A rejected submit does not depend on what the call would answer: it is not made. */
  lemma RejectedMakesNoCall(current: string, newPassword: string, confirm: string, a: Result<string, string>, b: Result<string, string>)
    requires newPassword != confirm || JsSemantics.Utf16Length(newPassword) < 6
    ensures HandleSubmit(current, newPassword, confirm, a) == HandleSubmit(current, newPassword, confirm, b)
  {
  }
}
