/** The database row of src/entities/user.rs, and the integer widths it uses. */
module Entities {
  import opened Wrappers

  /** Rust's `i32`. */
  type i32 = n: int | -0x8000_0000 <= n < 0x8000_0000

  /** A `chrono` date-time. The model only copies timestamps, so their
      representation is immaterial. */
  datatype Timestamp = Timestamp(micros: int)

  /** A row of the `users` table. `password` holds the bcrypt hash. */
  datatype User = User(
    id: i32,
    firstName: Option<string>,
    lastName: Option<string>,
    userName: string,
    email: string,
    password: string,
    createdAt: Timestamp,
    updatedAt: Option<Timestamp>,
    isActive: int)
}
