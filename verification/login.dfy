/** The login form (frontend/src/app/login/page.tsx). No credential is
    checked: the form only has to be filled in. */
module Login {
  import opened Ui

  const MissingMessage: string := "아이디와 비밀번호를 입력해주세요."

  /** `handleSubmit`: `if (userId && password)` goes to the main page,
      otherwise an alert asks for both. A JavaScript string is truthy when it
      is non-empty; there is no `trim()`. */
  function Submit(userId: string, password: string): (effects: seq<Effect>)
    ensures |effects| == 1
    ensures effects[0] == Navigate("/main") <==> userId != "" && password != ""
    ensures effects[0] == Alert(MissingMessage) <==> userId == "" || password == ""
  {
    if userId != "" && password != "" then [Navigate("/main")] else [Alert(MissingMessage)]
  }

  /** Only emptiness matters: any two pairs of inputs with the same empty
      fields give the same outcome. */
  lemma OnlyEmptinessMatters(u1: string, p1: string, u2: string, p2: string)
    requires (u1 == "") == (u2 == "") && (p1 == "") == (p2 == "")
    ensures Submit(u1, p1) == Submit(u2, p2)
  {
  }

  /** A user id or password made only of spaces is accepted. */
  lemma WhitespaceIsAccepted(spaces: nat)
    requires spaces > 0
    ensures Submit(seq(spaces, _ => ' '), seq(spaces, _ => ' ')) == [Navigate("/main")]
  {
  }

  /** Both inputs are `required` and sit in a form without `novalidate`, so
      the browser's constraint validation lets the form submit, and calls
      `handleSubmit`, only when neither value is empty. */
  predicate FormValid(userId: string, password: string)
  {
    userId != "" && password != ""
  }

  /** Pressing the login button (or Enter in an input): an invalid form is
      held back by the browser, whose own message is not modelled, and a
      valid one goes through `handleSubmit`. */
  function PressLogin(userId: string, password: string): (effects: seq<Effect>)
    ensures effects == [] <==> !FormValid(userId, password)
    ensures FormValid(userId, password) ==> effects == Submit(userId, password)
  {
    if FormValid(userId, password) then Submit(userId, password) else []
  }

  /** On the rendered page the handler's alert branch cannot be reached: a
      press either does nothing or goes to the main page. */
  lemma MissingAlertUnreachable(userId: string, password: string)
    ensures Alert(MissingMessage) !in PressLogin(userId, password)
    ensures PressLogin(userId, password) == [] || PressLogin(userId, password) == [Navigate("/main")]
  {
  }
}
