/**
 * Who may send a message to whom: the decision `MessageSendView` takes
 * before saving a message, over the sender's role and superuser flag and
 * the recipient's role. Roles are compared as exact, case-sensitive strings.
 * The view compares against lower-case literals while the user table stores
 * capitalised roles; `PerformCreateStored` is the decision over the stored
 * spellings.
 */
module Messages {
  import opened Text

  datatype User = User(userId: nat, role: string, isSuperuser: bool)

  /** The view either saves the message with the given sender or raises a
      validation error with the given text. */
  datatype Decision = Save(sender: User) | Reject(message: string)

  const MsgInvalidPermission := "Invalid Permission."
  const MsgStudentsToInstructors := "Invalid Permission: Students can only send messages to instructors."
  const MsgNotAllowed := "You are not allowed to send messages."

  /** Roles an instructor may write to. */
  const InstructorRecipients: seq<string> := ["instructor", "student", "admin"]

  /** The spellings a role comparison uses for the three roles. */
  datatype RoleNames = RoleNames(admin: string, instructor: string, student: string)

  /** The literals `perform_create` compares against. */
  const WrittenRoles := RoleNames("admin", "instructor", "student")

  /** The values the user table stores (the `role` choices of the user
      model). */
  const StoredRoles := RoleNames("Admin", "Instructor", "Student")

  /** The permission matrix, stated on its own for a given spelling of the
      roles: admins and superusers write to anyone, instructors to
      instructors, students and admins, students to instructors only, and
      nobody else to anyone. */
  predicate MaySend(names: RoleNames, sender: User, recipient: User) {
    || sender.role == names.admin
    || sender.isSuperuser
    || (sender.role == names.instructor && recipient.role in {names.instructor, names.student, names.admin})
    || (sender.role == names.student && recipient.role == names.instructor)
  }

  /** `perform_create`: the request's user sends to the validated recipient. */
  function PerformCreate(sender: User, recipient: User): (d: Decision)
    ensures d.Save? <==> MaySend(WrittenRoles, sender, recipient)
    ensures d.Save? ==> d.sender == sender
    ensures d.Reject? ==> d.message in {MsgInvalidPermission, MsgStudentsToInstructors, MsgNotAllowed}
  {
    if sender.role == "admin" || sender.isSuperuser then Save(sender)
    else if sender.role == "instructor" then
      if recipient.role in InstructorRecipients then Save(sender) else Reject(MsgInvalidPermission)
    else if sender.role == "student" then
      if recipient.role == "instructor" then Save(sender) else Reject(MsgStudentsToInstructors)
    else Reject(MsgNotAllowed)
  }

  /** Each refusal names the sender's situation: an instructor writing to an
      unknown role, a student writing to a non-instructor, or a sender whose
      role grants nothing. */
  lemma RejectionMessages(sender: User, recipient: User)
    requires !sender.isSuperuser
    ensures sender.role == "instructor" && recipient.role !in InstructorRecipients ==>
              PerformCreate(sender, recipient) == Reject(MsgInvalidPermission)
    ensures sender.role == "student" && recipient.role != "instructor" ==>
              PerformCreate(sender, recipient) == Reject(MsgStudentsToInstructors)
    ensures sender.role !in {"admin", "instructor", "student"} ==>
              PerformCreate(sender, recipient) == Reject(MsgNotAllowed)
  {
  }

  /** The user table stores roles capitalised (`Student`, `Instructor`,
      `Admin`); such a user who is not a superuser can send no message at
      all, whoever the recipient is. */
  lemma CapitalisedRolesCannotSend(sender: User, recipient: User)
    requires sender.role in {"Student", "Instructor", "Admin"} && !sender.isSuperuser
    ensures PerformCreate(sender, recipient) == Reject(MsgNotAllowed)
  {
    assert sender.role != "admin" && sender.role != "instructor" && sender.role != "student";
  }

  /** A superuser may write to anyone, whatever role either side has. */
  lemma SuperuserMaySendAnywhere(sender: User, recipient: User)
    requires sender.isSuperuser
    ensures PerformCreate(sender, recipient) == Save(sender)
  {
  }

  /** The same decision over the role values the user table stores. */
  function PerformCreateStored(sender: User, recipient: User): (d: Decision)
    ensures d.Save? <==> MaySend(StoredRoles, sender, recipient)
    ensures d.Save? ==> d.sender == sender
    ensures d.Reject? ==> d.message in {MsgInvalidPermission, MsgStudentsToInstructors, MsgNotAllowed}
  {
    if sender.role == "Admin" || sender.isSuperuser then Save(sender)
    else if sender.role == "Instructor" then
      if recipient.role in ["Instructor", "Student", "Admin"] then Save(sender) else Reject(MsgInvalidPermission)
    else if sender.role == "Student" then
      if recipient.role == "Instructor" then Save(sender) else Reject(MsgStudentsToInstructors)
    else Reject(MsgNotAllowed)
  }

  /** On stored roles, the corrected decision is the written one applied to
      the lower-cased roles: same outcome, same refusal text. */
  lemma StoredDecisionIsWrittenDecisionLowered(sender: User, recipient: User)
    requires sender.role in {"Admin", "Instructor", "Student"}
    requires recipient.role in {"Admin", "Instructor", "Student"}
    ensures var written := PerformCreate(sender.(role := Lower(sender.role)), recipient.(role := Lower(recipient.role)));
            var stored := PerformCreateStored(sender, recipient);
            && (stored.Save? <==> written.Save?)
            && (stored.Reject? ==> stored.message == written.message)
  {
    assert Lower("Admin") == "admin";
    assert Lower("Instructor") == "instructor";
    assert Lower("Student") == "student";
  }

  /** With the stored spellings, a student may write to an instructor but
      not to another student. */
  lemma StoredStudentWritesToInstructor(sender: User, recipient: User)
    requires sender.role == "Student" && !sender.isSuperuser
    ensures recipient.role == "Instructor" ==> PerformCreateStored(sender, recipient) == Save(sender)
    ensures recipient.role == "Student" ==> PerformCreateStored(sender, recipient) == Reject(MsgStudentsToInstructors)
  {
  }
}
