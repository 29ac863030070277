/** The payload check shared by create and update (util/InputValidator.java). */
module InputValidator {
  import opened Wrappers
  import opened Entities

  /** `StringUtils.isNotEmpty`: not null and of positive length. Blank text is not empty. */
  predicate IsNotEmpty(s: Option<string>)
    ensures IsNotEmpty(s) <==> s.Some? && s.value != ""
  {
    s.Some? && |s.value| > 0
  }

  /** `isValidateInput`: the payload is present and name, email and profession are not empty. */
  predicate IsValidateInput(vo: Option<UserVO>)
    ensures IsValidateInput(vo) ==> vo.Some?
    ensures vo.Some? ==> (IsValidateInput(vo) <==>
      IsNotEmpty(vo.value.name) && IsNotEmpty(vo.value.email) && IsNotEmpty(vo.value.profession))
  {
    vo.Some? && IsNotEmpty(vo.value.name) && IsNotEmpty(vo.value.email) && IsNotEmpty(vo.value.profession)
  }

  /** A null payload is rejected. */
  lemma NullRejected()
    ensures !IsValidateInput(None)
  {
  }

  /** Both directions: a present payload is accepted exactly when none of the three text fields
      is null or the empty string. */
  lemma ValidExactlyWhenFieldsPresent(vo: UserVO)
    ensures IsValidateInput(Some(vo)) <==>
      (vo.name.Some? && vo.name.value != "") &&
      (vo.email.Some? && vo.email.value != "") &&
      (vo.profession.Some? && vo.profession.value != "")
  {
  }

  /** Fields holding a single blank pass the check: blankness is not tested. */
  lemma WhitespaceAccepted(id: Option<Long>)
    ensures IsValidateInput(Some(UserVO(id, Some(" "), Some(" "), Some(" "))))
  {
  }

  /** The payload's id is never looked at. */
  lemma IdIgnored(vo: UserVO, id: Option<Long>)
    ensures IsValidateInput(Some(vo)) == IsValidateInput(Some(vo.(id := id)))
  {
  }
}
