/**
 * The dummy sign-in of inspection_front-main
 * (inspection_front-main/src/api/authAPI.js): a lookup in a fixed user list
 * by id and password, answering the user's id and name only.
 */
module DummyAuth {
  import opened Wrappers
  import opened JsSemantics
  import opened Collections

  datatype DummyUser = DummyUser(id: string, password: string, name: string)

  /** The fixed accounts. */
  const DummyUsers: seq<DummyUser> :=
    [DummyUser("intern", "password123", "인턴연구원"), DummyUser("soosan", "ss", "김수산")]

  /** What a successful sign-in resolves with: no password. */
  datatype PublicUser = PublicUser(id: string, name: string)

  /** The rejection message. */
  const Mismatch: string := "아이디 또는 비밀번호가 일치하지 않습니다."

  /** `user.id === id && user.password === password`. */
  predicate Matches(u: DummyUser, id: JsValue, password: JsValue) {
    StrictEq(Str(u.id), id) && StrictEq(Str(u.password), password)
  }

  /**
   * `login(id, password)`: resolves with `{ id, name }` of the first account
   * whose id and password both match, and rejects with the fixed message
   * when there is none.
   */
  function Login(id: JsValue, password: JsValue): (r: Result<PublicUser, string>)
    ensures r.Success? <==> exists i :: 0 <= i < |DummyUsers| && Matches(DummyUsers[i], id, password)
    ensures r.Success? ==>
      exists i :: 0 <= i < |DummyUsers| && Matches(DummyUsers[i], id, password)
        && r.value == PublicUser(DummyUsers[i].id, DummyUsers[i].name)
    ensures r.Failure? ==> r.error == Mismatch
  {
    var p := u => Matches(u, id, password);
    FindIsAtFindIndex(DummyUsers, p);
    match Find(DummyUsers, p)
    case Some(u) => Success(PublicUser(u.id, u.name))
    case None => Failure(Mismatch)
  }

  /** A known id with any other password is rejected. */
  lemma WrongPasswordRejected(password: JsValue)
    requires password != Str("password123")
    ensures Login(Str("intern"), password) == Failure(Mismatch)
  {
  }

  /** Each account signs in with its own password and yields its own name. */
  lemma AccountsSignIn()
    ensures Login(Str("intern"), Str("password123")) == Success(PublicUser("intern", "인턴연구원"))
    ensures Login(Str("soosan"), Str("ss")) == Success(PublicUser("soosan", "김수산"))
  {
  }
}
