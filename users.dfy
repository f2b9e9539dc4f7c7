/** The `users_list` row built on sign-up. The identity column is
    auto-generated by the store, so the application always hands over 0. */
module Users {

  datatype UserDataModel = UserDataModel(id: int, name: string, password: string)

  /** The id a freshly built record carries before the store assigns one. */
  const UnassignedId: int := 0
}
