/**
 * The account dialog (`front-end/src/components/AccountModal.jsx`): the checks on a new avatar
 * image, the display name, the phone number and a password change; the storage path of an
 * uploaded avatar; the merge of new keys into the user's metadata; and the form state its
 * buttons update. The authentication service is outside the model: whether it is configured
 * and how its calls end are parameters, and every `alert` is appended to a list of messages.
 */
module AccountModal {
  import opened Wrappers
  import opened Text
  import JsRuntime

  // ---------------------------------------------------------------------------
  // Avatar image

  /** The chosen file as the browser describes it. */
  datatype ImageFile = ImageFile(name: string, mimeType: string, size: int)

  datatype ImageVerdict = NoFile | NotAnImage | TooLarge | Accepted

  const MaxImageBytes: int := 5 * 1024 * 1024
  const NotAnImageMessage: string := "Please select an image file"
  const TooLargeMessage: string := "Image size should be less than 5MB"

  /** The checks before an upload: a file at all, then an `image/` type, then at most 5 MiB. */
  function CheckImage(file: Option<ImageFile>): (v: ImageVerdict)
    ensures v == NoFile <==> file.None?
    ensures v == NotAnImage <==> file.Some? && !StartsWith(file.value.mimeType, "image/")
    ensures v == TooLarge <==>
      file.Some? && StartsWith(file.value.mimeType, "image/") && file.value.size > MaxImageBytes
    ensures v == Accepted <==>
      file.Some? && StartsWith(file.value.mimeType, "image/") && file.value.size <= MaxImageBytes
  {
    match file
    case None => NoFile
    case Some(f) =>
      if !StartsWith(f.mimeType, "image/") then NotAnImage
      else if f.size > MaxImageBytes then TooLarge
      else Accepted
  }

  /** An oversized file of the wrong type is refused for its type: the type check comes first. */
  lemma TypeCheckFirst(f: ImageFile)
    requires !StartsWith(f.mimeType, "image/") && f.size > MaxImageBytes
    ensures CheckImage(Some(f)) == NotAnImage
  {
  }

  /** `name.split('.').pop()`: the text after the last dot, or the whole name without one. */
  function LastPiece(name: string): string {
    var parts := SplitOn(name, '.');
    parts[|parts| - 1]
  }

  lemma {:induction false} NoCountNoChar(s: string, c: char)
    ensures Count(s, c) == 0 <==> c !in s
  {
    if s != [] {
      NoCountNoChar(s[1..], c);
      assert s == [s[0]] + s[1..];
    }
  }

  /** `e` is what follows the last dot of `name`, or all of `name` when it has no dot. */
  predicate AfterLastDot(name: string, e: string) {
    '.' !in e && |e| <= |name| && e == name[|name| - |e|..] && (|e| < |name| ==> name[|name| - |e| - 1] == '.')
  }

  /** One character more in front: the last piece is the whole name or the tail's last piece. */
  lemma LastPieceStep(name: string, e: string)
    requires name != [] && e == LastPiece(name[1..])
    ensures LastPiece(name) == (if name[0] != '.' && Count(name[1..], '.') == 0 then [name[0]] + e else e)
  {
  }

  lemma {:induction false} LastPieceIsAfterLastDot(name: string)
    ensures AfterLastDot(name, LastPiece(name))
    decreases |name|
  {
    if name != [] {
      var tail := name[1..];
      var e := LastPiece(tail);
      LastPieceIsAfterLastDot(tail);
      LastPieceStep(name, e);
      assert name[|name| - |e|..] == tail[|tail| - |e|..];
      NoCountNoChar(tail, '.');
      if name[0] != '.' && Count(tail, '.') == 0 {
        assert e == tail;
        assert name == [name[0]] + tail;
      } else if |e| < |tail| {
        assert name[|name| - |e| - 1] == tail[|tail| - |e| - 1];
      }
    }
  }

  /** A name without a dot is its own extension. */
  lemma LastPieceWithoutDot(name: string)
    requires '.' !in name
    ensures LastPiece(name) == name
  {
    LastPieceIsAfterLastDot(name);
  }

  /** The storage path of an uploaded avatar: `avatars/<id>-<timestamp>.<ext>`. */
  function AvatarPath(userId: string, timestamp: nat, fileName: string): string {
    "avatars/" + userId + "-" + NatToString(timestamp) + "." + LastPiece(fileName)
  }

  /** The path ends in "." and the file's extension, which holds no dot. */
  lemma AvatarPathEndsWithExtension(userId: string, timestamp: nat, stem: string, ext: string)
    requires '.' !in ext
    ensures var p := AvatarPath(userId, timestamp, stem + "." + ext);
      EndsWith(p, "." + ext) && StartsWith(p, "avatars/" + userId + "-")
  {
    var name := stem + "." + ext;
    LastPieceIsAfterLastDot(name);
    var e := LastPiece(name);
    assert name[|name| - 1 - |ext|] == '.';
    assert e == ext;
    var p := AvatarPath(userId, timestamp, name);
    var pre := "avatars/" + userId + "-";
    assert p == pre + (NatToString(timestamp) + "." + ext);
    assert p[..|pre|] == pre;
    assert p == ("avatars/" + userId + "-" + NatToString(timestamp)) + ("." + ext);
    assert p[|p| - |"." + ext|..] == "." + ext;
  }

  // ---------------------------------------------------------------------------
  // Metadata

  /** `{...existing, ...updates}`: the new keys win, every other key keeps its value. */
  function MergeMetadata<V>(existing: map<string, V>, updates: map<string, V>): (r: map<string, V>)
    ensures r.Keys == existing.Keys + updates.Keys
    ensures forall k :: k in updates ==> r[k] == updates[k]
    ensures forall k :: k in existing && k !in updates ==> r[k] == existing[k]
  {
    existing + updates
  }

  // ---------------------------------------------------------------------------
  // Display name and phone number

  const EmptyNameMessage: string := "Display name cannot be empty"
  const EmptyPhoneMessage: string := "Please enter a phone number"
  const InvalidPhoneMessage: string := "Please enter a valid phone number"

  /** The name to save: the trimmed input, refused when it is blank. */
  function CheckName(displayName: string): (r: Result<string, string>)
    ensures r.Err? <==> AllSpace(JavaScript, displayName)
    ensures r.Err? ==> r.error == EmptyNameMessage
    ensures r.Ok? ==> r.value != [] && NoEdgeSpace(JavaScript, r.value) && r.value == Strip(JavaScript, displayName)
  {
    var t := Strip(JavaScript, displayName);
    if t == [] then Err(EmptyNameMessage) else Ok(t)
  }

  predicate IsDigit(c: char) {
    '0' <= c <= '9'
  }

  predicate AllDigits(s: string) {
    forall i :: 0 <= i < |s| ==> IsDigit(s[i])
  }

  /** `[-\s\.]`. */
  predicate IsPhoneSep(c: char) {
    c == '-' || c == '.' || IsSpace(JavaScript, c)
  }

  predicate AllPhoneSep(s: string) {
    forall i :: 0 <= i < |s| ==> IsPhoneSep(s[i])
  }

  /**
   * The pieces of `^[\+]?[(]?[0-9]{3}[)]?[-\s\.]?[0-9]{3}[-\s\.]?[0-9]{4,6}$`: the optional
   * plus and parentheses, three area digits, an optional separator, three digits, an optional
   * separator and four to six final digits.
   */
  datatype PhoneParts = PhoneParts(plus: bool, open: bool, area: string, close: bool, sep1: string,
                                   exchange: string, sep2: string, line: string)

  predicate ValidParts(p: PhoneParts) {
    |p.area| == 3 && AllDigits(p.area) && |p.exchange| == 3 && AllDigits(p.exchange) &&
    4 <= |p.line| <= 6 && AllDigits(p.line) &&
    |p.sep1| <= 1 && AllPhoneSep(p.sep1) && |p.sep2| <= 1 && AllPhoneSep(p.sep2)
  }

  function Flag(b: bool, c: char): string {
    if b then [c] else []
  }

  /** The text the pieces spell. */
  function Render(p: PhoneParts): string {
    Flag(p.plus, '+') + (Flag(p.open, '(') + (p.area + (Flag(p.close, ')') + (p.sep1 + Spell(p.exchange, p.sep2, p.line)))))
  }

  function Spell(exchange: string, sep2: string, line: string): string {
    exchange + (sep2 + line)
  }

  /** An optional leading character: whether it is there, and what follows. */
  function TakeChar(s: string, c: char): (bool, string) {
    if s != [] && s[0] == c then (true, s[1..]) else (false, s)
  }

  lemma TakeCharSplits(s: string, c: char)
    ensures s == Flag(TakeChar(s, c).0, c) + TakeChar(s, c).1
  {
    if s != [] && s[0] == c {
      assert s == [s[0]] + s[1..];
    }
  }

  /** An optional leading separator. */
  function TakeSep(s: string): (string, string) {
    if s != [] && IsPhoneSep(s[0]) then ([s[0]], s[1..]) else ([], s)
  }

  lemma TakeSepSplits(s: string)
    ensures var r := TakeSep(s); s == r.0 + r.1 && |r.0| <= 1 && AllPhoneSep(r.0)
  {
    if s != [] && IsPhoneSep(s[0]) {
      assert s == [s[0]] + s[1..];
    } else {
      assert s == [] + s;
    }
  }

  /** `[0-9]{3}[-\s\.]?[0-9]{4,6}$`: the exchange, the second separator and the line digits. */
  function ReadExchange(s: string): (r: Option<(string, string, string)>)
    ensures r.Some? ==> var (x, sep, line) := r.value;
      |x| == 3 && AllDigits(x) && |sep| <= 1 && AllPhoneSep(sep) && 4 <= |line| <= 6 && AllDigits(line) &&
      s == Spell(x, sep, line)
  {
    if |s| < 3 || !AllDigits(s[..3]) then None
    else
      TakeSepSplits(s[3..]);
      var (sep, line) := TakeSep(s[3..]);
      assert s == s[..3] + (sep + line);
      if 4 <= |line| <= 6 && AllDigits(line) then Some((s[..3], sep, line)) else None
  }

  /** `[0-9]{3}[)]?[-\s\.]?` and the rest: the area code, the closing parenthesis and the first separator. */
  function ReadArea(s: string, plus: bool, open: bool): (r: Option<PhoneParts>)
    ensures r.Some? ==>
      ValidParts(r.value) && r.value.plus == plus && r.value.open == open &&
      s == r.value.area + (Flag(r.value.close, ')') + (r.value.sep1 + Spell(r.value.exchange, r.value.sep2, r.value.line)))
  {
    if |s| < 3 || !AllDigits(s[..3]) then None
    else
      var close := TakeChar(s[3..], ')');
      TakeCharSplits(s[3..], ')');
      var sep1 := TakeSep(close.1);
      TakeSepSplits(close.1);
      var rest := ReadExchange(sep1.1);
      if rest.None? then None
      else
        assert s == s[..3] + s[3..];
        Some(PhoneParts(plus, open, s[..3], close.0, sep1.0, rest.value.0, rest.value.1, rest.value.2))
  }

  /**
   * The phone pattern as a left-to-right reading. Every optional piece is a character the next
   * piece cannot start with, so taking it whenever it is there is the only way to match.
   */
  function ParsePhone(s: string): Option<PhoneParts> {
    TakeCharSplits(s, '+');
    var (plus, s1) := TakeChar(s, '+');
    TakeCharSplits(s1, '(');
    var (open, s2) := TakeChar(s1, '(');
    ReadArea(s2, plus, open)
  }

  predicate PhoneMatches(s: string) {
    ParsePhone(s).Some?
  }

  /** What the reading accepts is spelled by valid pieces: no other text has the phone shape. */
  lemma ParsePhoneSound(s: string)
    requires PhoneMatches(s)
    ensures ValidParts(ParsePhone(s).value) && Render(ParsePhone(s).value) == s
  {
  }

  /** A piece that is there is taken, and one that is not leaves the text alone. */
  lemma TakeCharComplete(b: bool, c: char, t: string)
    requires t == [] || t[0] != c
    ensures TakeChar(Flag(b, c) + t, c) == (b, t)
  {
    if b {
      assert (Flag(b, c) + t)[1..] == t;
    } else {
      assert Flag(b, c) + t == t;
    }
  }

  lemma TakeSepComplete(sep: string, t: string)
    requires |sep| <= 1 && AllPhoneSep(sep) && (t == [] || !IsPhoneSep(t[0]))
    ensures TakeSep(sep + t) == (sep, t)
  {
    if sep != [] {
      assert (sep + t)[0] == sep[0] && (sep + t)[1..] == t && sep == [sep[0]];
    } else {
      assert sep + t == t;
    }
  }

  lemma ReadExchangeComplete(x: string, sep: string, line: string)
    requires |x| == 3 && AllDigits(x) && |sep| <= 1 && AllPhoneSep(sep) && 4 <= |line| <= 6 && AllDigits(line)
    ensures ReadExchange(Spell(x, sep, line)) == Some((x, sep, line))
  {
    var s := Spell(x, sep, line);
    assert s[..3] == x && s[3..] == sep + line;
    assert IsDigit(line[0]);
    TakeSepComplete(sep, line);
  }

  lemma ReadAreaComplete(p: PhoneParts)
    requires ValidParts(p)
    ensures ReadArea(p.area + (Flag(p.close, ')') + (p.sep1 + Spell(p.exchange, p.sep2, p.line))), p.plus, p.open) == Some(p)
  {
    var tail4 := Spell(p.exchange, p.sep2, p.line);
    var tail3 := p.sep1 + tail4;
    var after := Flag(p.close, ')') + tail3;
    var s := p.area + after;
    assert s[..3] == p.area && s[3..] == after;
    assert IsDigit(tail4[0]) by {
      assert tail4[0] == p.exchange[0];
    }
    assert tail3[0] != ')' by {
      assert tail3[0] == (if p.sep1 == [] then tail4[0] else p.sep1[0]);
    }
    TakeCharComplete(p.close, ')', tail3);
    TakeSepComplete(p.sep1, tail4);
    ReadExchangeComplete(p.exchange, p.sep2, p.line);
  }

  /** Everything valid pieces spell is accepted, and read back into the same pieces. */
  lemma ParsePhoneComplete(p: PhoneParts)
    requires ValidParts(p)
    ensures ParsePhone(Render(p)) == Some(p)
  {
    var tail2 := p.area + (Flag(p.close, ')') + (p.sep1 + Spell(p.exchange, p.sep2, p.line)));
    var tail1 := Flag(p.open, '(') + tail2;
    ReadAreaComplete(p);
    assert tail2[0] == p.area[0] && IsDigit(tail2[0]);
    assert tail1[0] == (if p.open then '(' else tail2[0]);
    TakeCharComplete(p.plus, '+', tail1);
    TakeCharComplete(p.open, '(', tail2);
  }

  /** The phone to save: the trimmed input, when it is not blank and has the phone shape. */
  function CheckPhone(phoneNumber: string): (r: Result<string, string>)
    ensures r.Ok? ==> r.value == Strip(JavaScript, phoneNumber)
    ensures r.Err? ==> r.error == (if AllSpace(JavaScript, phoneNumber) then EmptyPhoneMessage else InvalidPhoneMessage)
  {
    var t := Strip(JavaScript, phoneNumber);
    if t == [] then Err(EmptyPhoneMessage)
    else if !PhoneMatches(t) then Err(InvalidPhoneMessage)
    else Ok(t)
  }

  /** A number is accepted exactly when it is not blank and its trimmed text has the phone shape. */
  lemma CheckPhoneAccepts(phoneNumber: string)
    ensures CheckPhone(phoneNumber).Ok? <==>
      !AllSpace(JavaScript, phoneNumber) && PhoneMatches(Strip(JavaScript, phoneNumber))
  {
  }

  // ---------------------------------------------------------------------------
  // Password change

  const MissingPasswordMessage: string := "Please fill in all password fields"
  const MismatchMessage: string := "New passwords do not match"
  const ShortPasswordMessage: string := "Password must be at least 6 characters long"
  const NotConfiguredMessage: string := "Supabase is not configured"
  const WrongPasswordMessage: string := "Current password is incorrect"
  const PasswordFailedMessage: string := "Failed to change password. Please try again."
  const PasswordChangedMessage: string := "Password changed successfully!"
  const MinPasswordLength: int := 6

  /**
   * The local checks, in order; the first that fails decides the message. The length is
   * JavaScript's `length`, a count of UTF-16 code units.
   */
  function CheckPasswords(current: string, next: string, confirm: string): (r: Option<string>)
    ensures r == None <==>
      current != "" && next != "" && next == confirm && |JsRuntime.Utf16(next)| >= MinPasswordLength
    ensures current == "" || next == "" || confirm == "" ==> r == Some(MissingPasswordMessage)
    ensures current != "" && next != "" && confirm != "" && next != confirm ==> r == Some(MismatchMessage)
    ensures current != "" && next != "" && next == confirm && |JsRuntime.Utf16(next)| < MinPasswordLength ==>
      r == Some(ShortPasswordMessage)
  {
    if current == "" || next == "" || confirm == "" then Some(MissingPasswordMessage)
    else if next != confirm then Some(MismatchMessage)
    else if |JsRuntime.Utf16(next)| < MinPasswordLength then Some(ShortPasswordMessage)
    else None
  }

  /** Three characters above U+FFFF are six code units: long enough. Six letters are too; five are not. */
  lemma PasswordLengthCountsUnits()
    ensures CheckPasswords("x", "\U{1F600}\U{1F600}\U{1F600}", "\U{1F600}\U{1F600}\U{1F600}") == None
    ensures CheckPasswords("x", "abcdef", "abcdef") == None
    ensures CheckPasswords("x", "abcde", "abcde") == Some(ShortPasswordMessage)
  {
    var e := "\U{1F600}";
    assert |JsRuntime.Utf16(e)| == 2;
    assert |JsRuntime.Utf16("\U{1F600}\U{1F600}")| == 4 by {
      assert "\U{1F600}\U{1F600}"[1..] == e;
    }
    assert "\U{1F600}\U{1F600}\U{1F600}"[1..] == "\U{1F600}\U{1F600}";
    assert |JsRuntime.Utf16("abcde")| == 5 by {
      assert "abcde"[1..] == "bcde" && "bcde"[1..] == "cde" && "cde"[1..] == "de" && "de"[1..] == "e";
    }
    assert "abcdef"[1..] == "bcdef" && "bcdef"[1..] == "cdef" && "cdef"[1..] == "def" && "def"[1..] == "ef" && "ef"[1..] == "f";
  }

  /** How the metadata update ends: skipped (not configured), failed, or done. */
  datatype UpdateOutcome = NotConfigured | UpdateFailed | Updated

  const NameSavedMessage: string := "Display name updated successfully!"
  const NameFailedMessage: string := "Failed to update display name. Please try again."
  const PhoneSavedMessage: string := "Phone number added successfully!"
  const PhoneFailedMessage: string := "Failed to add phone number. Please try again."

  /** The form state of the dialog and the alerts it has shown, one value per field of `AccountForm`. */
  datatype Form = Form(displayName: string, phoneNumber: string, isEditingName: bool, isAddingPhone: bool,
                       currentPassword: string, newPassword: string, confirmPassword: string,
                       isChangingPassword: bool, isSavingPassword: bool, alerts: seq<string>)

  /** The password form is rendered while `isChangingPassword` holds. */
  predicate PasswordFormShown(f: Form) {
    f.isChangingPassword
  }

  /**
   * As written, "Save Password" exists only inside the password form, and it is
   * `disabled={isChangingPassword}`: the flag that shows the form also disables its button.
   */
  predicate SavePasswordEnabledAsWritten(f: Form) {
    PasswordFormShown(f) && !f.isChangingPassword
  }

  /** So as written, `handleChangePassword` can never be started from the dialog. */
  lemma SavePasswordNeverEnabledAsWritten(f: Form)
    ensures PasswordFormShown(f) ==> !SavePasswordEnabledAsWritten(f)
    ensures !SavePasswordEnabledAsWritten(f)
  {
  }

  /** Corrected: the button is disabled only while a change is in flight, a flag of its own. */
  predicate SavePasswordEnabled(f: Form) {
    PasswordFormShown(f) && !f.isSavingPassword
  }

  class AccountForm {
    var displayName: string
    var phoneNumber: string
    var isEditingName: bool
    var isAddingPhone: bool
    var currentPassword: string
    var newPassword: string
    var confirmPassword: string
    var isChangingPassword: bool
    var isSavingPassword: bool
    var alerts: seq<string>

    function State(): Form
      reads this
    {
      Form(displayName, phoneNumber, isEditingName, isAddingPhone, currentPassword, newPassword,
           confirmPassword, isChangingPassword, isSavingPassword, alerts)
    }

    /** Opening with a user: name and phone from the user ("" when absent), everything else cleared. */
    constructor(userName: string, userPhone: string)
      ensures displayName == userName && phoneNumber == userPhone
      ensures !isEditingName && !isAddingPhone && !isChangingPassword && !isSavingPassword
      ensures currentPassword == "" && newPassword == "" && confirmPassword == "" && alerts == []
    {
      displayName := userName;
      phoneNumber := userPhone;
      isEditingName := false;
      isAddingPhone := false;
      currentPassword := "";
      newPassword := "";
      confirmPassword := "";
      isChangingPassword := false;
      isSavingPassword := false;
      alerts := [];
    }

    /** Cancelling the name edit restores the user's name. */
    method CancelNameEdit(userName: string)
      modifies this
      ensures !isEditingName && displayName == userName
      ensures phoneNumber == old(phoneNumber) && isAddingPhone == old(isAddingPhone) && alerts == old(alerts)
      ensures currentPassword == old(currentPassword) && newPassword == old(newPassword)
      ensures confirmPassword == old(confirmPassword) && isChangingPassword == old(isChangingPassword)
      ensures isSavingPassword == old(isSavingPassword)
    {
      isEditingName := false;
      displayName := userName;
    }

    /** Cancelling the phone entry restores the user's phone. */
    method CancelPhoneEdit(userPhone: string)
      modifies this
      ensures !isAddingPhone && phoneNumber == userPhone
      ensures displayName == old(displayName) && isEditingName == old(isEditingName) && alerts == old(alerts)
      ensures currentPassword == old(currentPassword) && newPassword == old(newPassword)
      ensures confirmPassword == old(confirmPassword) && isChangingPassword == old(isChangingPassword)
      ensures isSavingPassword == old(isSavingPassword)
    {
      isAddingPhone := false;
      phoneNumber := userPhone;
    }

    /** "Change password" shows the form; with no change in flight, its Save button is enabled. */
    method OpenPasswordForm()
      modifies this
      ensures State() == old(State()).(isChangingPassword := true)
      ensures !old(isSavingPassword) ==> SavePasswordEnabled(State())
    {
      isChangingPassword := true;
    }

    /** Cancelling the password form clears all three fields. */
    method CancelPassword()
      modifies this
      ensures !isChangingPassword && currentPassword == "" && newPassword == "" && confirmPassword == ""
      ensures displayName == old(displayName) && phoneNumber == old(phoneNumber) && alerts == old(alerts)
      ensures isEditingName == old(isEditingName) && isAddingPhone == old(isAddingPhone)
      ensures isSavingPassword == old(isSavingPassword)
    {
      isChangingPassword := false;
      currentPassword := "";
      newPassword := "";
      confirmPassword := "";
    }

    /**
     * `handleSaveName`: a blank name is refused with no update; otherwise the trimmed name is
     * sent. An unconfigured service returns without raising, so it too reports success.
     */
    method SaveName(outcome: UpdateOutcome) returns (sent: Option<string>)
      modifies this
      ensures var checked := CheckName(old(displayName)); sent == (if checked.Ok? then Some(checked.value) else None)
      ensures sent.None? ==> State() == old(State()).(alerts := old(alerts) + [EmptyNameMessage])
      ensures sent.Some? && outcome != UpdateFailed ==>
        State() == old(State()).(alerts := old(alerts) + [NameSavedMessage], isEditingName := false)
      ensures sent.Some? && outcome == UpdateFailed ==> State() == old(State()).(alerts := old(alerts) + [NameFailedMessage])
    {
      var checked := CheckName(displayName);
      if checked.Err? {
        alerts := alerts + [checked.error];
        return None;
      }
      sent := Some(checked.value);
      if outcome == UpdateFailed {
        alerts := alerts + [NameFailedMessage];
      } else {
        isEditingName := false;
        alerts := alerts + [NameSavedMessage];
      }
    }

    /** `handleAddPhone`: blank or badly shaped numbers are refused with no update. */
    method AddPhone(outcome: UpdateOutcome) returns (sent: Option<string>)
      modifies this
      ensures var checked := CheckPhone(old(phoneNumber)); sent == (if checked.Ok? then Some(checked.value) else None)
      ensures sent.None? ==> State() == old(State()).(alerts := old(alerts) + [CheckPhone(old(phoneNumber)).error])
      ensures sent.Some? && outcome != UpdateFailed ==>
        State() == old(State()).(alerts := old(alerts) + [PhoneSavedMessage], isAddingPhone := false)
      ensures sent.Some? && outcome == UpdateFailed ==> State() == old(State()).(alerts := old(alerts) + [PhoneFailedMessage])
    {
      var checked := CheckPhone(phoneNumber);
      if checked.Err? {
        alerts := alerts + [checked.error];
        return None;
      }
      sent := Some(checked.value);
      if outcome == UpdateFailed {
        alerts := alerts + [PhoneFailedMessage];
      } else {
        isAddingPhone := false;
        alerts := alerts + [PhoneSavedMessage];
      }
    }

    /**
     * `handleChangePassword`, with the busy state on its own flag: the local checks first, with
     * no call to the service when one fails; then the service must be configured, the current
     * password must sign in, and the update must succeed. Success clears the fields and closes
     * the form; a failure leaves the form open for another try. The busy flag is off afterwards.
     */
    method ChangePassword(configured: bool, currentAccepted: bool, updateError: Option<string>)
      returns (called: bool)
      modifies this
      ensures called <==> CheckPasswords(old(currentPassword), old(newPassword), old(confirmPassword)).None?
      ensures !called ==> State() == old(State()).(alerts := old(alerts) +
        [CheckPasswords(old(currentPassword), old(newPassword), old(confirmPassword)).value])
      ensures called && !configured ==> alerts == old(alerts) + [NotConfiguredMessage]
      ensures called && configured && !currentAccepted ==> alerts == old(alerts) + [WrongPasswordMessage]
      ensures called && configured && currentAccepted && updateError.Some? ==>
        alerts == old(alerts) + [if updateError.value != "" then updateError.value else PasswordFailedMessage]
      ensures called && configured && currentAccepted && updateError.None? ==>
        alerts == old(alerts) + [PasswordChangedMessage]
      ensures (called && configured && currentAccepted && updateError.None?) ==>
        currentPassword == "" && newPassword == "" && confirmPassword == "" && !isChangingPassword
      ensures !(called && configured && currentAccepted && updateError.None?) ==>
        currentPassword == old(currentPassword) && newPassword == old(newPassword) &&
        confirmPassword == old(confirmPassword) && isChangingPassword == old(isChangingPassword)
      ensures called ==> !isSavingPassword
      ensures displayName == old(displayName) && phoneNumber == old(phoneNumber)
      ensures isEditingName == old(isEditingName) && isAddingPhone == old(isAddingPhone)
    {
      var refusal := CheckPasswords(currentPassword, newPassword, confirmPassword);
      if refusal.Some? {
        alerts := alerts + [refusal.value];
        return false;
      }
      called := true;
      isSavingPassword := true;
      if !configured {
        alerts := alerts + [NotConfiguredMessage];
      } else if !currentAccepted {
        alerts := alerts + [WrongPasswordMessage];
      } else if updateError.Some? {
        alerts := alerts + [if updateError.value != "" then updateError.value else PasswordFailedMessage];
      } else {
        alerts := alerts + [PasswordChangedMessage];
        currentPassword := "";
        newPassword := "";
        confirmPassword := "";
        isChangingPassword := false;
      }
      isSavingPassword := false;
    }
  }

  /** The dialog renders only when open and signed in. */
  predicate Renders(isOpen: bool, hasUser: bool) {
    isOpen && hasUser
  }
}
