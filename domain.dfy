/** Enumerations shared by the client pages and the backend models. */
module Domain {

  /** `Question.QUESTION_TYPES` in backend/surveys/models.py and QUESTION_TYPES in the builder. */
  datatype QuestionType = TEXT | TEXTAREA | RADIO | CHECKBOX | DROPDOWN | RATING

  /** The types whose questions carry an option list: ['RADIO', 'CHECKBOX', 'DROPDOWN']. */
  predicate HasChoices(t: QuestionType) {
    t == RADIO || t == CHECKBOX || t == DROPDOWN
  }

  /** `User.ROLE_CHOICES`, as the strings carried in tokens and compared by the guards. */
  const ADMIN: string := "ADMIN"
  const HR: string := "HR"
  const EMPLOYEE: string := "EMPLOYEE"

  predicate IsRoleChoice(role: string) {
    role == ADMIN || role == HR || role == EMPLOYEE
  }
}
