/** The authentication controller: a user table keyed by e-mail, with
    register, login and the profile read. Password hashing (bcrypt) and
    token signing (jwt) are functions the model does not look into. */
module AuthController {

  import opened Wrappers

  const MissingFieldsMessage := "Email et mot de passe requis"
  const EmailTakenMessage := "Email déjà utilisé"
  const CreatedMessage := "Utilisateur créé"
  const InvalidCredentialsMessage := "Identifiants invalides"

  /** A stored user; `password` holds what the hash function returned. */
  datatype User = User(id: int, email: string, password: string, createdAt: int)

  /** What the answers show of a user. */
  datatype PublicUser = PublicUser(id: int, email: string)
  datatype Registered = Registered(message: string, user: PublicUser)
  datatype Session = Session(token: string, user: PublicUser)
  datatype Profile = Profile(id: int, email: string, createdAt: int)

  /** `bcrypt.hash` (salt and cost folded in), `bcrypt.compare(plain, hash)`
      and `jwt.sign({ userId }, secret, { expiresIn: '24h' })`. */
  datatype Crypto = Crypto(hash: string -> string, compare: (string, string) -> bool, sign: int -> string)

  /** A body field that is present and not the empty string (`!!field`). */
  predicate Present(field: Option<string>)
  {
    field.Some? && field.value != ""
  }

  class UserTable {
    var users: map<string, User>
    /** The id the database will give the next user. */
    var nextId: int

    ghost predicate Valid()
      reads this
    {
      && (forall e :: e in users ==> users[e].email == e && users[e].id < nextId)
      && (forall e1, e2 :: e1 in users && e2 in users && users[e1].id == users[e2].id ==> e1 == e2)
    }

    constructor ()
      ensures Valid() && users == map[]
    {
      users := map[];
      nextId := 1;
    }

    /** `POST /api/auth/register`. */
    method Register(email: Option<string>, password: Option<string>, crypto: Crypto, now: int)
      returns (reply: Reply<Registered>)
      requires Valid()
      modifies this
      ensures Valid()
      ensures reply.Ok? <==> Present(email) && Present(password) && email.value !in old(users)
      ensures !(Present(email) && Present(password)) ==>
        reply == Error(400, MissingFieldsMessage) && users == old(users) && nextId == old(nextId)
      ensures Present(email) && Present(password) && email.value in old(users) ==>
        reply == Error(400, EmailTakenMessage) && users == old(users) && nextId == old(nextId)
      ensures reply.Ok? ==>
        && reply == Ok(201, Registered(CreatedMessage, PublicUser(old(nextId), email.value)))
        && users == old(users)[email.value := User(old(nextId), email.value, crypto.hash(password.value), now)]
    {
      if !Present(email) || !Present(password) {
        return Error(400, MissingFieldsMessage);
      }
      if email.value in users {
        return Error(400, EmailTakenMessage);
      }
      var user := User(nextId, email.value, crypto.hash(password.value), now);
      users := users[email.value := user];
      nextId := nextId + 1;
      reply := Ok(201, Registered(CreatedMessage, PublicUser(user.id, user.email)));
    }

    /** `POST /api/auth/login`: an unknown e-mail and a wrong password give
        the same answer. */
    function Login(email: string, password: string, crypto: Crypto): (reply: Reply<Session>)
      reads this
      requires Valid()
      ensures reply.Ok? <==> email in users && crypto.compare(password, users[email].password)
      ensures reply.Ok? ==>
        reply == Ok(200, Session(crypto.sign(users[email].id), PublicUser(users[email].id, email)))
      ensures reply.Error? ==> reply == Error(401, InvalidCredentialsMessage)
    {
      if email !in users || !crypto.compare(password, users[email].password) then
        Error(401, InvalidCredentialsMessage)
      else
        var user := users[email];
        Ok(200, Session(crypto.sign(user.id), PublicUser(user.id, user.email)))
    }

    /** `GET /api/auth/me` for the id the guard attached: id, e-mail and
        creation time of that user, or JSON `null` when there is none. */
    method GetMe(userId: int) returns (profile: Option<Profile>)
      requires Valid()
      ensures profile.Some? <==> exists e :: e in users && users[e].id == userId
      ensures profile.Some? ==>
        exists e :: e in users && users[e].id == userId && profile.value == Profile(userId, e, users[e].createdAt)
    {
      if exists e | e in users :: users[e].id == userId {
        var e :| e in users && users[e].id == userId;
        profile := Some(Profile(users[e].id, users[e].email, users[e].createdAt));
      } else {
        profile := None;
      }
    }
  }

  /** Registering and logging in with the same credentials succeeds and yields
      the token signed for the new id; registering the e-mail again fails; a
      wrong password is answered like an unknown e-mail. */
  method RegisterLoginScenario(table: UserTable, crypto: Crypto, now: int)
    requires table.Valid() && "ada@example.org" !in table.users
    requires forall p :: crypto.compare(p, crypto.hash(p))
    requires !crypto.compare("wrong", crypto.hash("s3cret"))
    modifies table
  {
    var first := table.Register(Some("ada@example.org"), Some("s3cret"), crypto, now);
    assert first.Ok?;
    var id := first.value.user.id;
    var session := table.Login("ada@example.org", "s3cret", crypto);
    assert session == Ok(200, Session(crypto.sign(id), PublicUser(id, "ada@example.org")));
    var again := table.Register(Some("ada@example.org"), Some("other"), crypto, now);
    assert again == Error(400, EmailTakenMessage);
    var wrong := table.Login("ada@example.org", "wrong", crypto);
    var unknown := table.Login("bob@example.org", "s3cret", crypto);
    assert "bob@example.org" !in table.users ==> wrong == unknown;
    var me := table.GetMe(id);
    assert me.Some? && me.value.email == "ada@example.org";
  }
}
