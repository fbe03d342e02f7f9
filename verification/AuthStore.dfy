/** The repositories over the account tables. Each method is one SQL statement or
    one transaction, and does what the statement function of the same name says. */
module AuthStore {
  import opened Base
  import opened AuthTables

  class Database {
    var users: map<string, User>
    var otps: map<string, Otp>
    var tokens: map<TokenHash, Token>

    constructor ()
      ensures Tables() == AuthTables.Tables(map[], map[], map[])
    {
      users, otps, tokens := map[], map[], map[];
    }

    function Tables(): Tables
      reads this
    {
      AuthTables.Tables(users, otps, tokens)
    }

    /** Other calls run: between two statements of a call the tables may become anything. */
    method Interfere(t: Tables)
      modifies this
      ensures Tables() == t
    {
      users, otps, tokens := t.users, t.otps, t.tokens;
    }
  }

  class UserRepository {
    const db: Database

    constructor (db: Database)
      ensures this.db == db
    {
      this.db := db;
    }

    method FindByPhoneNumber(phone: string) returns (found: bool)
      ensures found == HasPhone(db.Tables(), phone)
    {
      found := exists u :: u in db.users && db.users[u].phone == phone;
    }

    method FindByID(id: string) returns (user: Option<User>)
      ensures user == if id in db.users then Some(db.users[id]) else None
    {
      user := if id in db.users then Some(db.users[id]) else None;
    }
  }

  class AuthOTPRepository {
    const db: Database

    constructor (db: Database)
      ensures this.db == db
    {
      this.db := db;
    }

    method Create(otp: Otp) returns (created: bool)
      modifies db
      ensures db.Tables() == InsertOtp(old(db.Tables()), otp)
      ensures created == old(otp.id !in db.otps)
    {
      created := otp.id !in db.otps;
      if created {
        db.otps := db.otps[otp.id := otp];
      }
    }

    /** ORDER BY created_at DESC LIMIT 1; between equal times the choice is the database's. */
    method FindLatest(phone: string) returns (row: Option<Otp>, ghost pick: string)
      ensures row.None? ==> !HasOtp(db.Tables(), phone)
      ensures row.Some? ==> IsLatest(db.Tables(), phone, pick) && row.value == db.otps[pick]
    {
      row, pick := None, "";
      if id :| id in db.otps && IsLatest(db.Tables(), phone, id) {
        row, pick := Some(db.otps[id]), id;
      } else if HasOtp(db.Tables(), phone) {
        LatestExists(db.Tables(), phone);
        assert false;
      }
    }

    method IncrementAttempt(id: string) returns (found: bool)
      modifies db
      ensures db.Tables() == AuthTables.IncrementAttempt(old(db.Tables()), id)
      ensures found == old(id in db.otps)
    {
      found := id in db.otps;
      if found {
        var row := db.otps[id];
        db.otps := db.otps[id := row.(attempts := row.attempts + 1)];
      }
    }

    method MarkUsed(id: string, now: Time) returns (found: bool)
      modifies db
      ensures db.Tables() == AuthTables.MarkUsed(old(db.Tables()), id, now)
      ensures found == old(id in db.otps)
    {
      found := id in db.otps;
      if found {
        db.otps := db.otps[id := db.otps[id].(usedAt := Some(now))];
      }
    }
  }

  class RegistrationRepository {
    const db: Database

    constructor (db: Database)
      ensures this.db == db
    {
      this.db := db;
    }

    /** One transaction: nothing is visible unless both inserts succeed. */
    method CompleteRegister(user: User, hash: TokenHash, expiresAt: Time) returns (r: Result<string, AuthError>)
      modifies db
      ensures (db.Tables(), r) == InsertUserWithToken(old(db.Tables()), user, hash, expiresAt)
    {
      if user.id in db.users || exists u :: u in db.users && db.users[u].phone == user.phone {
        return Failure(PhoneAlreadyExists);
      }
      var users := db.users[user.id := user];
      if hash in db.tokens {
        return Failure(ConstraintViolation);
      }
      var tokens := db.tokens[hash := Token(user.id, expiresAt, None)];
      db.users, db.tokens := users, tokens;
      r := Success(user.id);
    }
  }

  class RefreshTokenRepository {
    const db: Database

    constructor (db: Database)
      ensures this.db == db
    {
      this.db := db;
    }

    method Create(hash: TokenHash, token: Token) returns (created: bool)
      modifies db
      ensures db.Tables() == InsertToken(old(db.Tables()), hash, token)
      ensures created == old(CanInsertToken(db.Tables(), hash, token))
    {
      created := hash !in db.tokens && token.userId in db.users;
      if created {
        db.tokens := db.tokens[hash := token];
      }
    }

    method FindByHash(hash: TokenHash) returns (row: Option<Token>)
      ensures row == if hash in db.tokens then Some(db.tokens[hash]) else None
    {
      row := if hash in db.tokens then Some(db.tokens[hash]) else None;
    }

    /** One transaction: a failed insert rolls the revocation back. */
    method Replace(current: TokenHash, next: TokenHash, token: Token, now: Time) returns (r: Result<(), AuthError>)
      modifies db
      ensures (db.Tables(), r) == ReplaceToken(old(db.Tables()), current, next, token, now)
    {
      if current !in db.tokens || db.tokens[current].revokedAt.Some? {
        return Failure(InvalidRefreshToken);
      }
      var tokens := db.tokens[current := db.tokens[current].(revokedAt := Some(now))];
      if next in tokens || token.userId !in db.users {
        return Failure(ConstraintViolation);
      }
      tokens := tokens[next := token];
      db.tokens := tokens;
      r := Success(());
    }

    method RevokeByHash(hash: TokenHash, now: Time) returns (found: bool)
      modifies db
      ensures db.Tables() == RevokeToken(old(db.Tables()), hash, now)
      ensures found == old(Live(db.Tables(), hash))
    {
      found := hash in db.tokens && db.tokens[hash].revokedAt.None?;
      if found {
        db.tokens := db.tokens[hash := db.tokens[hash].(revokedAt := Some(now))];
      }
    }

    method RevokeAllByUserID(userId: string, now: Time)
      modifies db
      ensures db.Tables() == RevokeAll(old(db.Tables()), userId, now)
    {
      db.tokens := map h | h in db.tokens :: RevokedToken(db.tokens[h], userId, now);
    }
  }
}
