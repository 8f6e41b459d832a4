/** The profile page (frontend/src/app/mypage/page.tsx): the user-info form,
    the password-change form and its confirmation check. */
module MyPage {
  import opened Ui

  datatype UserInfo = UserInfo(
    companyCode: string,
    manager: string,
    phone: string,
    email: string,
    companyName: string,
    businessSite: string)

  const InitialCompanyCode: string := "NESICS_001"

  const InitialUserInfo: UserInfo := UserInfo(
    InitialCompanyCode,
    "김철수",
    "010-2455-7039",
    "kim@nessolution.co.kr",
    "(주)엔이에스솔루션",
    "인천광역시 서구 가좌동 17 나동 213호")

  /** The fields some input passes to `handleUserInfoChange`. The company
      code input is read-only and has no handler, so it is not among them. */
  datatype UserField = Manager | Phone | Email | CompanyName | BusinessSite

  function UserValue(u: UserInfo, f: UserField): string
  {
    match f
    case Manager => u.manager
    case Phone => u.phone
    case Email => u.email
    case CompanyName => u.companyName
    case BusinessSite => u.businessSite
  }

  /** `handleUserInfoChange(field, value)`: only the named field changes. */
  function ChangeUserInfo(u: UserInfo, f: UserField, v: string): (r: UserInfo)
    ensures UserValue(r, f) == v
    ensures forall g :: g != f ==> UserValue(r, g) == UserValue(u, g)
    ensures r.companyCode == u.companyCode
  {
    match f
    case Manager => u.(manager := v)
    case Phone => u.(phone := v)
    case Email => u.(email := v)
    case CompanyName => u.(companyName := v)
    case BusinessSite => u.(businessSite := v)
  }

  datatype UserEdit = UserEdit(field: UserField, value: string)

  function ApplyUserEdits(u: UserInfo, edits: seq<UserEdit>): UserInfo
    decreases |edits|
  {
    if |edits| == 0 then u else ApplyUserEdits(ChangeUserInfo(u, edits[0].field, edits[0].value), edits[1..])
  }

  /** A field no edit names keeps its value, and the company code, which no
      edit can name, always does. */
  lemma {:induction false} UneditedFieldKept(u: UserInfo, edits: seq<UserEdit>, f: UserField)
    ensures ApplyUserEdits(u, edits).companyCode == u.companyCode
    ensures (forall i :: 0 <= i < |edits| ==> edits[i].field != f) ==>
      UserValue(ApplyUserEdits(u, edits), f) == UserValue(u, f)
    decreases |edits|
  {
    if |edits| > 0 {
      UneditedFieldKept(ChangeUserInfo(u, edits[0].field, edits[0].value), edits[1..], f);
    }
  }

  /** An edit that no later edit of the same field overrides decides the
      field's final value. */
  lemma {:induction false} LastEditWins(u: UserInfo, edits: seq<UserEdit>, i: nat)
    requires i < |edits|
    requires forall j :: i < j < |edits| ==> edits[j].field != edits[i].field
    ensures UserValue(ApplyUserEdits(u, edits), edits[i].field) == edits[i].value
    decreases |edits|
  {
    var u' := ChangeUserInfo(u, edits[0].field, edits[0].value);
    var rest := edits[1..];
    if i == 0 {
      forall j | 0 <= j < |rest|
        ensures rest[j].field != edits[0].field
      {
        assert rest[j] == edits[j + 1];
      }
      UneditedFieldKept(u', rest, edits[0].field);
    } else {
      assert rest[i - 1] == edits[i];
      forall j | i - 1 < j < |rest|
        ensures rest[j].field != rest[i - 1].field
      {
        assert rest[j] == edits[j + 1];
      }
      LastEditWins(u', rest, i - 1);
    }
  }

  /** Whatever the user types, the company code keeps its value, every
      edited field holds the value of its last edit, and a field never
      edited keeps its value. */
  lemma UserEditsOutcome(u: UserInfo, edits: seq<UserEdit>, f: UserField)
    ensures ApplyUserEdits(u, edits).companyCode == u.companyCode
    ensures forall i :: 0 <= i < |edits| && edits[i].field == f &&
                        (forall j :: i < j < |edits| ==> edits[j].field != f) ==>
      UserValue(ApplyUserEdits(u, edits), f) == edits[i].value
    ensures (forall i :: 0 <= i < |edits| ==> edits[i].field != f) ==>
      UserValue(ApplyUserEdits(u, edits), f) == UserValue(u, f)
  {
    UneditedFieldKept(u, edits, f);
    forall i | 0 <= i < |edits| && edits[i].field == f &&
               (forall j :: i < j < |edits| ==> edits[j].field != f)
      ensures UserValue(ApplyUserEdits(u, edits), f) == edits[i].value
    {
      LastEditWins(u, edits, i);
    }
  }

  const SavedMessage: string := "사용자 정보가 저장되었습니다."

  datatype PasswordChange = PasswordChange(currentPassword: string, newPassword: string, confirmPassword: string)

  const InitialPasswordChange: PasswordChange := PasswordChange("", "", "")

  datatype PasswordField = CurrentPassword | NewPassword | ConfirmPassword

  function PasswordValue(p: PasswordChange, f: PasswordField): string
  {
    match f
    case CurrentPassword => p.currentPassword
    case NewPassword => p.newPassword
    case ConfirmPassword => p.confirmPassword
  }

  /** `handlePasswordChange(field, value)`: only the named field changes. */
  function ChangePassword(p: PasswordChange, f: PasswordField, v: string): (r: PasswordChange)
    ensures PasswordValue(r, f) == v
    ensures forall g :: g != f ==> PasswordValue(r, g) == PasswordValue(p, g)
  {
    match f
    case CurrentPassword => p.(currentPassword := v)
    case NewPassword => p.(newPassword := v)
    case ConfirmPassword => p.(confirmPassword := v)
  }

  const MismatchMessage: string := "새 비밀번호가 일치하지 않습니다."
  const ChangedMessage: string := "비밀번호가 변경되었습니다."

  /** `handlePasswordSubmit`: rejected with an alert exactly when the new
      password and its confirmation differ; otherwise accepted — even when
      both are empty, and whatever the current password is. */
  function SubmitPassword(p: PasswordChange): (effects: seq<Effect>)
    ensures |effects| == 1
    ensures effects[0] == Alert(MismatchMessage) <==> p.newPassword != p.confirmPassword
    ensures effects[0] == Alert(ChangedMessage) <==> p.newPassword == p.confirmPassword
  {
    if p.newPassword != p.confirmPassword then [Alert(MismatchMessage)]
    else [Alert(ChangedMessage)]
  }

  /** The outcome does not depend on the current password at all. */
  lemma CurrentPasswordIgnored(p: PasswordChange, other: string)
    ensures SubmitPassword(p.(currentPassword := other)) == SubmitPassword(p)
    ensures SubmitPassword(InitialPasswordChange) == [Alert(ChangedMessage)]
  {
  }

  /* ------------------------------------------------------------- the page */

  datatype ProfileState = ProfileState(user: UserInfo, password: PasswordChange)

  const InitialState: ProfileState := ProfileState(InitialUserInfo, InitialPasswordChange)

  /** The five editable user-info inputs, the save button, the three
      password inputs and the password-change button. */
  datatype Event =
    | EditUser(field: UserField, value: string)
    | SaveClicked                 // "저장"
    | EditPassword(pfield: PasswordField, value: string)
    | PasswordSubmitClicked       // "비밀번호 변경"

  datatype Transition = Transition(state: ProfileState, effects: seq<Effect>)

  /** One event. The two buttons change nothing: saving only confirms, and
      a password change, accepted or not, leaves the three password inputs
      filled in. Neither navigates. */
  function Step(s: ProfileState, e: Event): (t: Transition)
    ensures NoNavigation(t.effects)
    ensures |t.effects| <= 1 && (t.effects != [] ==> t.effects[0].Alert?)
    ensures e.SaveClicked? ==> t.state == s && t.effects == [Alert(SavedMessage)]
    ensures e.PasswordSubmitClicked? ==> t.state == s && t.effects == SubmitPassword(s.password)
    ensures e.EditUser? ==>
      t.state == s.(user := ChangeUserInfo(s.user, e.field, e.value)) && t.effects == []
    ensures e.EditPassword? ==>
      t.state == s.(password := ChangePassword(s.password, e.pfield, e.value)) && t.effects == []
  {
    match e
    case EditUser(f, v) => Transition(s.(user := ChangeUserInfo(s.user, f, v)), [])
    case SaveClicked => Transition(s, [Alert(SavedMessage)])
    case EditPassword(f, v) => Transition(s.(password := ChangePassword(s.password, f, v)), [])
    case PasswordSubmitClicked => Transition(s, SubmitPassword(s.password))
  }

  /** The state after a sequence of events, and every effect in order. */
  function Run(s: ProfileState, events: seq<Event>): Transition
    decreases |events|
  {
    if |events| == 0 then Transition(s, [])
    else
      var t := Step(s, events[0]);
      var rest := Run(t.state, events[1..]);
      Transition(rest.state, t.effects + rest.effects)
  }

  /** Whatever the user does on the page, the company code stays
      "NESICS_001", and every effect is an alert: the page never leaves
      itself. */
  lemma {:induction false} RunKeepsCompanyCodeAndOnlyAlerts(s: ProfileState, events: seq<Event>)
    ensures Run(s, events).state.user.companyCode == s.user.companyCode
    ensures s == InitialState ==> Run(s, events).state.user.companyCode == InitialCompanyCode
    ensures forall i :: 0 <= i < |Run(s, events).effects| ==> Run(s, events).effects[i].Alert?
    ensures NoNavigation(Run(s, events).effects)
    decreases |events|
  {
    if |events| > 0 {
      var t := Step(s, events[0]);
      RunKeepsCompanyCodeAndOnlyAlerts(t.state, events[1..]);
      var rest := Run(t.state, events[1..]);
      assert forall i :: 0 <= i < |t.effects + rest.effects| ==>
        (t.effects + rest.effects)[i] == if i < |t.effects| then t.effects[i] else rest.effects[i - |t.effects|];
    }
  }

  /** Pressing only the two buttons, any number of times, leaves both forms
      as they were and gives one alert per press. */
  lemma {:induction false} ButtonsKeepForms(s: ProfileState, events: seq<Event>)
    requires forall i :: 0 <= i < |events| ==> events[i].SaveClicked? || events[i].PasswordSubmitClicked?
    ensures Run(s, events).state == s
    ensures |Run(s, events).effects| == |events|
    decreases |events|
  {
    if |events| > 0 {
      ButtonsKeepForms(s, events[1..]);
    }
  }
}
