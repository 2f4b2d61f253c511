/**
 The messages of the user service (`UserRequest`, `CreateUserRequest`,
 `UserResponse`). A stored record holds exactly the five fields of a
 `UserResponse`, so one datatype serves for both.
 */
module Users {

  datatype User = User(userId: int, name: string, email: string, age: int, createdAt: string)

  /** `CreateUserRequest`: the fields a caller supplies for a new record */
  datatype NewUser = NewUser(name: string, email: string, age: int)

  /** `UserRequest` */
  datatype UserRequest = UserRequest(userId: int)

  /** `UserResponse()`: the message with every field at its protobuf default */
  const EmptyUser: User := User(0, "", "", 0, "")
}
