/** Who may create an account (pocketbase/pb_hooks/lib/signup-gate.js). */
module SignupGate {

  datatype Mode = Invite | Open | Closed

  datatype Reason = Superuser | UnclaimedInstance | OpenSignups | SignupsClosed
                  | SetupOwner | PendingInvite | InviteRequired

  datatype Decision = Decision(allow: bool, reason: Reason)

  datatype Signup = Signup(mode: Mode, email: string, isSuperuser: bool, hasPendingInvite: bool, ownerEmail: string)

  function DecideSignup(input: Signup, adminCount: nat): Decision {
    if input.isSuperuser then Decision(true, Superuser)
    else if adminCount == 0 then Decision(true, UnclaimedInstance)
    else if input.mode == Open then Decision(true, OpenSignups)
    else if input.mode == Closed then Decision(false, SignupsClosed)
    else if input.ownerEmail != "" && input.email == input.ownerEmail then Decision(true, SetupOwner)
    else if input.hasPendingInvite then Decision(true, PendingInvite)
    else Decision(false, InviteRequired)
  }

  /** A refusal says why: sign-ups are closed, or an invitation is missing. */
  lemma RefusalSaysWhy(input: Signup, adminCount: nat)
    requires !DecideSignup(input, adminCount).allow
    ensures adminCount > 0 && !input.isSuperuser
    ensures DecideSignup(input, adminCount).reason == SignupsClosed <==> input.mode == Closed
    ensures DecideSignup(input, adminCount).reason == InviteRequired <==> input.mode == Invite
  { }
}
