/** The records the service passes around: the persisted entity, the transport payload
    and the success body. */
module Entities {
  import opened Wrappers

  const LONG_MIN: int := -0x8000_0000_0000_0000
  const LONG_MAX: int := 0x7FFF_FFFF_FFFF_FFFF

  /** Java's `long` / `Long`: a signed 64-bit integer. */
  type Long = x: int | LONG_MIN <= x <= LONG_MAX

  /** The persisted document (entity/User.java); every field may be null. */
  datatype User = User(id: Option<Long>, name: Option<string>, email: Option<string>, profession: Option<string>)

  /** The request body of create and update: the same four nullable fields. */
  datatype UserVO = UserVO(id: Option<Long>, name: Option<string>, email: Option<string>, profession: Option<string>)

  /** The body of a successful create, update or delete. */
  datatype ResponseVO = ResponseVO(success: bool, message: string)
}
