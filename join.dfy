/**
 * The registration page's field checks (src/component/Join.js). Each check
 * classifies the text of one input and writes an outcome message into a
 * message field; an empty message shows nothing. The duplicate-id lookup
 * enters only as the server's answer.
 */
module Registration {
  import opened Wrappers
  import opened Chars
  import JsString

  // ---------------------------------------------------------------- messages

  const IdTooShortMsg: string := "아이디는 6자 이상이어야 합니다."
  const IdSpecialMsg: string := "특수문자는 포함할 수 없습니다."
  const IdMixMsg: string := "영어와 숫자를 조합해야 합니다"
  const IdTakenMsg: string := "이미 사용 중인 아이디입니다."
  const IdAvailableMsg: string := "사용 가능한 아이디입니다."
  const IdServerErrorMsg: string := "서버 오류 발생"
  const PwdTooShortMsg: string := "비밀번호는 6자 이상이어야 합니다."
  const PwdMixMsg: string := "영어와 숫자, 특수문자를 조합해야 합니다"
  const PwdUsableMsg: string := "사용 가능한 비밀번호입니다."
  const PwdMismatchMsg: string := "비밀번호가 일치하지 않습니다."
  const NameTooShortMsg: string := "이름은 2자 이상이어야 합니다."
  const NameCharsMsg: string := "이름에는 숫자와 특수문자가 포함될 수 없습니다."
  const NikNameTooShortMsg: string := "닉네임은 2자 이상이어야 합니다."
  const NikNameCharsMsg: string := "닉네임에는 영어와 _ 또는 -만 사용할 수 있습니다."
  const EmailMsg: string := "유효한 이메일 형식이 아닙니다."
  const PhoneMsg: string := "-를 제외한 번호만 입력해주세요"

  /** The text whose presence turns the password message green. */
  const UsableMarker: string := "사용 가능한"

  // ---------------------------------------------------------------- id

  /** An id the form would send to the duplicate check. */
  predicate IdWellFormed(id: string) {
    && |id| >= 6
    && (forall i | 0 <= i < |id| :: !IsSpecial(id[i]))
    && HasLetter(id)
    && HasDigit(id)
  }

  /** Which of the local id checks rejects `id` first, if any. */
  datatype IdCheck = IdTooShort | IdHasSpecial | IdNotMixed | IdPassed

  /** The local id checks, run in the order length, special character, letter-and-digit. */
  function LocalIdCheck(id: string): (r: IdCheck)
    ensures r == IdPassed <==> IdWellFormed(id)
    ensures r == IdTooShort <==> |id| < 6
    ensures r == IdHasSpecial <==> |id| >= 6 && (exists k | 0 <= k < |id| :: IsSpecial(id[k]))
    ensures r == IdNotMixed <==>
      |id| >= 6 && (forall k | 0 <= k < |id| :: !IsSpecial(id[k])) && !(HasLetter(id) && HasDigit(id))
  {
    if |id| < 6 then IdTooShort
    else if HasSpecial(id) then IdHasSpecial
    else if !HasLetter(id) || !HasDigit(id) then IdNotMixed
    else IdPassed
  }

  /** The duplicate-check answer: `data.exists`, or the request threw. */
  datatype IdReply = Answered(taken: bool) | Failed

  /** The pair of messages (`idError`, `idAvailable`) one duplicate-check click leaves. */
  datatype IdMessages = IdMessages(error: string, available: string)

  /** The messages a local rejection leaves: its error text, and "available" cleared. */
  function RejectionMessages(c: IdCheck): IdMessages {
    match c
    case IdTooShort => IdMessages(IdTooShortMsg, "")
    case IdHasSpecial => IdMessages(IdSpecialMsg, "")
    case IdNotMixed => IdMessages(IdMixMsg, "")
    case IdPassed => IdMessages("", "")
  }

  /** The messages the duplicate-check answer leaves once it arrives. */
  function ReplyMessages(reply: IdReply): IdMessages {
    match reply
    case Answered(taken) =>
      if taken then IdMessages(IdTakenMsg, "") else IdMessages("", IdAvailableMsg)
    case Failed => IdMessages(IdServerErrorMsg, "")
  }

  /** What a click on the duplicate-check button shows once the server's answer is in. */
  function CheckIdOutcome(id: string, reply: IdReply): (r: IdMessages)
    ensures r.available != "" <==> IdWellFormed(id) && reply == Answered(false)
    ensures r.available != "" ==> r.available == IdAvailableMsg
    ensures (r.error == "") <==> (r.available != "")
    ensures |id| < 6 ==> r.error == IdTooShortMsg
    ensures |id| >= 6 && HasSpecial(id) ==> r.error == IdSpecialMsg
    ensures |id| >= 6 && !HasSpecial(id) && !(HasLetter(id) && HasDigit(id)) ==> r.error == IdMixMsg
    ensures IdWellFormed(id) && reply == Answered(true) ==> r.error == IdTakenMsg
    ensures IdWellFormed(id) && reply.Failed? ==> r.error == IdServerErrorMsg
  {
    var c := LocalIdCheck(id);
    if c == IdPassed then ReplyMessages(reply) else RejectionMessages(c)
  }

  /** The length test comes first: "ab1!" is reported as too short, not for its `!`. */
  lemma ShortIdReportedForLength()
    ensures LocalIdCheck("ab1!") == IdTooShort
    ensures CheckIdOutcome("ab1!", Answered(false)).error == IdTooShortMsg
  {
  }

  /** A `_` anywhere makes an id of six or more characters fail the special-character test. */
  lemma UnderscoreIdRejected(id: string, k: nat)
    requires |id| >= 6 && k < |id| && id[k] == '_'
    ensures LocalIdCheck(id) == IdHasSpecial
    ensures CheckIdOutcome(id, Answered(false)).error == IdSpecialMsg
  {
    assert IsSpecial(id[k]);
  }

  /** `-` does not: "ab-cd12" passes all three local checks. */
  lemma HyphenIdPasses()
    ensures LocalIdCheck("ab-cd12") == IdPassed
  {
    var id := "ab-cd12";
    assert IsAsciiLetter(id[0]) && IsAsciiDigit(id[5]);
    forall i | 0 <= i < |id|
      ensures !IsSpecial(id[i])
    {
      assert id[i] in {'a', 'b', '-', 'c', 'd', '1', '2'};
    }
  }

  /** Letters alone are not enough: "abcdef" fails the letter-and-digit test. */
  lemma LettersOnlyIdNotMixed()
    ensures LocalIdCheck("abcdef") == IdNotMixed
  {
    var id := "abcdef";
    forall i | 0 <= i < |id|
      ensures !IsSpecial(id[i]) && !IsAsciiDigit(id[i])
    {
      assert id[i] in {'a', 'b', 'c', 'd', 'e', 'f'};
    }
  }

  // ---------------------------------------------------------------- password

  /** A password the form calls usable. */
  predicate StrongPassword(pwd: string) {
    |pwd| >= 6 && HasLetter(pwd) && HasDigit(pwd) && HasSpecial(pwd)
  }

  /** The message the password check writes; `None` when it returns without writing (empty input). */
  function PwdMessage(pwd: string): (r: Option<string>)
    ensures r.None? <==> pwd == ""
    ensures r == Some(PwdUsableMsg) <==> StrongPassword(pwd)
    ensures 0 < |pwd| < 6 ==> r == Some(PwdTooShortMsg)
    ensures |pwd| >= 6 && !StrongPassword(pwd) ==> r == Some(PwdMixMsg)
    ensures r.Some? ==> r.value in {PwdTooShortMsg, PwdMixMsg, PwdUsableMsg}
  {
    if pwd == "" then None
    else if |pwd| < 6 then Some(PwdTooShortMsg)
    else if !HasLetter(pwd) || !HasDigit(pwd) || !HasSpecial(pwd) then Some(PwdMixMsg)
    else Some(PwdUsableMsg)
  }

  /** How a message line is rendered. */
  datatype Display = Hidden | Green | Red

  /** The password message line: hidden when empty, green when it includes the marker, red otherwise. */
  function PwdDisplay(msg: string): (d: Display)
    ensures d == Hidden <==> msg == ""
    ensures JsString.StartsWith(msg, UsableMarker) ==> d == Green
    ensures UsableMarker[0] !in msg ==> d != Green
  {
    assert UsableMarker[0] !in msg ==> !JsString.Includes(msg, UsableMarker) by {
      if UsableMarker[0] !in msg {
        JsString.IncludesNeedsFirstChar(msg, UsableMarker);
      }
    }
    if msg == "" then Hidden
    else if JsString.Includes(msg, UsableMarker) then Green
    else Red
  }

  /** Of the three password messages only the "usable" one is drawn green. */
  lemma {:induction false} OnlyUsableIsGreen(msg: string)
    requires msg in {PwdTooShortMsg, PwdMixMsg, PwdUsableMsg}
    ensures PwdDisplay(msg) == Green <==> msg == PwdUsableMsg
    ensures PwdDisplay(msg) != Hidden
  {
    if msg == PwdUsableMsg {
      assert JsString.StartsWith(msg, UsableMarker);
    } else {
      assert UsableMarker[0] == '사';
      JsString.IncludesNeedsFirstChar(msg, UsableMarker);
    }
  }

  /** A non-empty password is shown green exactly when it is strong. */
  lemma PwdGreenIffStrong(pwd: string)
    requires pwd != ""
    ensures PwdDisplay(PwdMessage(pwd).value) == Green <==> StrongPassword(pwd)
  {
    OnlyUsableIsGreen(PwdMessage(pwd).value);
  }

  /** The confirm message: set exactly when the two password fields differ. */
  function PwdCheckMessage(pwd: string, pwdCheck: string): (r: string)
    ensures r != "" <==> pwd != pwdCheck
    ensures r != "" ==> r == PwdMismatchMsg
  {
    if pwd != pwdCheck then PwdMismatchMsg else ""
  }

  // ---------------------------------------------------------------- name, nickname

  /** A name the form accepts: two or more characters, no ASCII digit, no special character. */
  predicate NameAccepted(name: string) {
    |name| >= 2 && forall i | 0 <= i < |name| :: !IsAsciiDigit(name[i]) && !IsSpecial(name[i])
  }

  function NameMessage(name: string): (r: string)
    ensures r == "" <==> NameAccepted(name)
    ensures |name| < 2 ==> r == NameTooShortMsg
    ensures |name| >= 2 && !NameAccepted(name) ==> r == NameCharsMsg
    ensures r in {"", NameTooShortMsg, NameCharsMsg}
  {
    if |name| < 2 then NameTooShortMsg
    else if HasDigit(name) || HasSpecial(name) then NameCharsMsg
    else ""
  }

  /** A nickname the form accepts: two or more characters, each in `[A-Za-z0-9_-]`. */
  predicate NikNameAccepted(nikName: string) {
    |nikName| >= 2 && forall i | 0 <= i < |nikName| :: IsNickChar(nikName[i])
  }

  function NikNameMessage(nikName: string): (r: string)
    ensures r == "" <==> NikNameAccepted(nikName)
    ensures |nikName| < 2 ==> r == NikNameTooShortMsg
    ensures |nikName| >= 2 && !NikNameAccepted(nikName) ==> r == NikNameCharsMsg
    ensures r in {"", NikNameTooShortMsg, NikNameCharsMsg}
  {
    var hasSpecialChar := HasNonNickChar(nikName);
    var hasEnglish := AllNickChars(nikName);
    if |nikName| < 2 then NikNameTooShortMsg
    else if hasSpecialChar || !hasEnglish then NikNameCharsMsg
    else ""
  }

  /** The nickname's second regex adds nothing: failing it already means failing the first. */
  lemma NikNameTestsCoincide(nikName: string)
    ensures (HasNonNickChar(nikName) || !AllNickChars(nikName)) == HasNonNickChar(nikName)
  {
  }

  // ---------------------------------------------------------------- email, phone

  /** The regex's three `\S+` runs lie before `s[i] == '@'`, between it and `s[j] == '.'`, and after. */
  predicate EmailMatchAt(s: string, i: int, j: int) {
    && 0 < i < |s| && i + 1 < j < |s| - 1
    && s[i] == '@' && s[j] == '.'
    && NoWhitespace(s[..i]) && NoWhitespace(s[i + 1..j]) && NoWhitespace(s[j + 1..])
  }

  /** `/^\S+@\S+\.\S+$/.test(s)` */
  predicate EmailPattern(s: string) {
    exists i, j | 0 < i < |s| && i + 1 < j < |s| - 1 :: EmailMatchAt(s, i, j)
  }

  function EmailMessage(email: string): (r: string)
    ensures r == "" <==> EmailPattern(email)
    ensures r != "" ==> r == EmailMsg
  {
    if !EmailPattern(email) then EmailMsg else ""
  }

  /** Any `a@b.c` with non-empty, white-space-free `a`, `b`, `c` is accepted. */
  lemma EmailAcceptsParts(a: string, b: string, c: string)
    requires a != [] && b != [] && c != []
    requires NoWhitespace(a) && NoWhitespace(b) && NoWhitespace(c)
    ensures EmailPattern(a + "@" + b + "." + c)
  {
    var s := a + "@" + b + "." + c;
    var i, j := |a|, |a| + 1 + |b|;
    assert s[i] == '@' && s[j] == '.';
    assert s[..i] == a;
    assert s[i + 1..j] == b;
    assert s[j + 1..] == c;
    assert EmailMatchAt(s, i, j);
  }

  /** An accepted email has no white space and splits as `a@b.c` with `a`, `b`, `c` non-empty. */
  lemma EmailParts(s: string) returns (a: string, b: string, c: string)
    requires EmailPattern(s)
    ensures s == a + "@" + b + "." + c
    ensures a != [] && b != [] && c != []
    ensures NoWhitespace(s)
  {
    var i, j :| 0 < i < |s| && i + 1 < j < |s| - 1 && EmailMatchAt(s, i, j);
    a, b, c := s[..i], s[i + 1..j], s[j + 1..];
    assert s == a + [s[i]] + b + [s[j]] + c;
    forall k | 0 <= k < |s|
      ensures !IsJsWhitespace(s[k])
    {
      if k < i {
        assert s[k] == a[k] && !IsJsWhitespace(a[k]);
      } else if i < k < j {
        assert s[k] == b[k - i - 1] && !IsJsWhitespace(b[k - i - 1]);
      } else if j < k {
        assert s[k] == c[k - j - 1] && !IsJsWhitespace(c[k - j - 1]);
      }
    }
  }

  /** One white-space character anywhere rejects the email. */
  lemma EmailRejectsWhitespace(s: string, k: nat)
    requires k < |s| && IsJsWhitespace(s[k])
    ensures !EmailPattern(s)
  {
    forall i, j | 0 < i < |s| && i + 1 < j < |s| - 1
      ensures !EmailMatchAt(s, i, j)
    {
      if k < i {
        assert s[..i][k] == s[k];
      } else if i < k < j {
        assert s[i + 1..j][k - i - 1] == s[k];
      } else if j < k {
        assert s[j + 1..][k - j - 1] == s[k];
      }
    }
  }

  /** Examples: a missing dot and an inner space are both rejected; a plain address is accepted. */
  lemma EmailExamples()
    ensures EmailMessage("a@b") == EmailMsg
    ensures EmailMessage("a b@c.d") == EmailMsg
    ensures EmailMessage("me@mail.com") == ""
  {
    EmailRejectsWhitespace("a b@c.d", 1);
    EmailAcceptsParts("me", "mail", "com");
    assert "me" + "@" + "mail" + "." + "com" == "me@mail.com";
  }

  /** `/^[0-9]{10,11}$/.test(s)` */
  predicate PhonePattern(s: string) {
    (|s| == 10 || |s| == 11) && forall i | 0 <= i < |s| :: IsAsciiDigit(s[i])
  }

  function PhoneMessage(phone: string): (r: string)
    ensures r == "" <==> PhonePattern(phone)
    ensures r != "" ==> r == PhoneMsg
  {
    if !PhonePattern(phone) then PhoneMsg else ""
  }

  /** A number written with hyphens is rejected, whatever its length. */
  lemma PhoneRejectsHyphen(phone: string, k: nat)
    requires k < |phone| && phone[k] == '-'
    ensures PhoneMessage(phone) == PhoneMsg
  {
    assert !IsAsciiDigit(phone[k]);
  }

  // ---------------------------------------------------------------- the form

  /**
   * The form's state: the text of the three inputs whose value a handler
   * reads back (id, password, confirm) and the eight message fields.
   */
  class JoinForm {
    var id: string
    var pwd: string
    var pwdCheck: string
    var idError: string
    var idAvailable: string
    var pwdError: string
    var pwdCheckError: string
    var nameError: string
    var nikNameError: string
    var emailError: string
    var phoneError: string

    /**
     * The "available" line, when shown, is the availability text and never
     * sits beside an id error; the confirm error is shown exactly when the
     * two password fields differ; a non-empty password field always carries
     * its own message.
     */
    ghost predicate Valid()
      reads this
    {
      && (idAvailable != "" ==> idAvailable == IdAvailableMsg && idError == "")
      && (pwdCheckError != "" <==> pwd != pwdCheck)
      && (pwd != "" ==> PwdMessage(pwd) == Some(pwdError))
      && pwdError in {"", PwdTooShortMsg, PwdMixMsg, PwdUsableMsg}
    }

    constructor ()
      ensures Valid()
      ensures id == "" && pwd == "" && pwdCheck == ""
      ensures idError == "" && idAvailable == "" && pwdError == "" && pwdCheckError == ""
      ensures nameError == "" && nikNameError == "" && emailError == "" && phoneError == ""
    {
      id, pwd, pwdCheck := "", "", "";
      idError, idAvailable, pwdError, pwdCheckError := "", "", "", "";
      nameError, nikNameError, emailError, phoneError := "", "", "", "";
    }

    /** Typing in the id field: the field takes the new text and the "available" line is cleared. */
    method EditId(newId: string)
      requires Valid()
      modifies this`id, this`idAvailable
      ensures Valid()
      ensures id == newId && idAvailable == ""
    {
      id := newId;
      idAvailable := "";
    }

    /**
     * The duplicate-check click, up to the awaited request. An id that fails
     * a local check gets that check's message at once and nothing is sent;
     * a well-formed id is sent (`sent`) and the messages wait for the reply.
     */
    method HandleCheckId() returns (sent: Option<string>)
      requires Valid()
      modifies this`idError, this`idAvailable
      ensures Valid()
      ensures sent.Some? <==> IdWellFormed(id)
      ensures sent.Some? ==> sent.value == id
      ensures sent.Some? ==> idError == old(idError) && idAvailable == old(idAvailable)
      ensures sent.None? ==> IdMessages(idError, idAvailable) == RejectionMessages(LocalIdCheck(id))
    {
      if |id| < 6 {
        idError := IdTooShortMsg;
        idAvailable := "";
        return None;
      }
      if HasSpecial(id) {
        idError := IdSpecialMsg;
        idAvailable := "";
        return None;
      }
      if !HasLetter(id) || !HasDigit(id) {
        idError := IdMixMsg;
        idAvailable := "";
        return None;
      }
      sent := Some(id);
    }

    /**
     * The awaited duplicate-check request settling: "taken", "available" or
     * the server error, whatever the id field holds by then.
     */
    method ReceiveIdReply(reply: IdReply)
      requires Valid()
      modifies this`idError, this`idAvailable
      ensures Valid()
      ensures IdMessages(idError, idAvailable) == ReplyMessages(reply)
      ensures idAvailable != "" <==> reply == Answered(false)
    {
      match reply
      case Answered(taken) =>
        if taken {
          idError := IdTakenMsg;
          idAvailable := "";
        } else {
          idError := "";
          idAvailable := IdAvailableMsg;
        }
      case Failed =>
        idError := IdServerErrorMsg;
        idAvailable := "";
    }

    /**
     * A click whose request, if one is sent, settles before the id is edited:
     * the two id messages are then exactly `CheckIdOutcome` of the id.
     */
    method CheckIdSettled(reply: IdReply)
      requires Valid()
      modifies this`idError, this`idAvailable
      ensures Valid()
      ensures IdMessages(idError, idAvailable) == CheckIdOutcome(id, reply)
      ensures idAvailable != "" ==> IdWellFormed(id)
    {
      var sent := HandleCheckId();
      if sent.Some? {
        ReceiveIdReply(reply);
      }
    }

    /** `validatePwd`: an empty password leaves the message as it was. */
    method ValidatePwd(p: string)
      modifies this`pwdError
      ensures pwdError == (if p == "" then old(pwdError) else PwdMessage(p).value)
    {
      if p == "" {
        return;
      } else if |p| < 6 {
        pwdError := PwdTooShortMsg;
      } else if !HasLetter(p) || !HasDigit(p) || !HasSpecial(p) {
        pwdError := PwdMixMsg;
      } else {
        pwdError := PwdUsableMsg;
      }
    }

    /** `validatePwdCheck`: compares the password field with the given confirm text. */
    method ValidatePwdCheck(check: string)
      modifies this`pwdCheckError
      ensures pwdCheckError == PwdCheckMessage(pwd, check)
    {
      pwdCheckError := PwdCheckMessage(pwd, check);
    }

    /** Typing in the password field: re-checks the password, then the confirmation against it. */
    method EditPwd(newPwd: string)
      requires Valid()
      modifies this`pwd, this`pwdError, this`pwdCheckError
      ensures Valid()
      ensures pwd == newPwd
      ensures pwdError == (if newPwd == "" then old(pwdError) else PwdMessage(newPwd).value)
      ensures pwdCheckError != "" <==> newPwd != pwdCheck
    {
      pwd := newPwd;
      ValidatePwd(newPwd);
      ValidatePwdCheck(pwdCheck);
    }

    /** Typing in the confirm field: re-checks it against the password field. */
    method EditPwdCheck(newCheck: string)
      requires Valid()
      modifies this`pwdCheck, this`pwdCheckError
      ensures Valid()
      ensures pwdCheck == newCheck
      ensures pwdCheckError != "" <==> pwd != newCheck
    {
      pwdCheck := newCheck;
      ValidatePwdCheck(newCheck);
    }

    /** What the password line shows for the current password field. */
    lemma PwdLineGreenIffStrong()
      requires Valid() && pwd != ""
      ensures PwdDisplay(pwdError) == Green <==> StrongPassword(pwd)
    {
      PwdGreenIffStrong(pwd);
    }

    /** `validateName`. */
    method ValidateName(name: string)
      modifies this`nameError
      ensures nameError == NameMessage(name)
    {
      nameError := NameMessage(name);
    }

    /** `validateNikName`. */
    method ValidateNikName(nikName: string)
      modifies this`nikNameError
      ensures nikNameError == NikNameMessage(nikName)
    {
      nikNameError := NikNameMessage(nikName);
    }

    /** `validateEmail`. */
    method ValidateEmail(email: string)
      modifies this`emailError
      ensures emailError == EmailMessage(email)
    {
      emailError := EmailMessage(email);
    }

    /** `validatePhone`. */
    method ValidatePhone(phone: string)
      modifies this`phoneError
      ensures phoneError == PhoneMessage(phone)
    {
      phoneError := PhoneMessage(phone);
    }
  }
}
