/** The rows of the four tables: users, categories, sub_categories and transactions,
    and the password digest that stands for bcrypt. */
module Schema {
  import opened Common

  /** The `direction` enum of the transactions table. */
  datatype Direction = In | Out

  function DirectionText(d: Direction): (r: string) {
    match d
    case In => "IN"
    case Out => "OUT"
  }

  /** The database's cast of a request string to the enum; `None` is the cast error. */
  function ParseDirection(s: string): (d: Option<Direction>)
    ensures d.Some? <==> s == "IN" || s == "OUT"
    ensures d.Some? ==> DirectionText(d.value) == s
  {
    if s == "IN" then Some(In) else if s == "OUT" then Some(Out) else None
  }

  lemma DirectionRoundTrip(d: Direction)
    ensures ParseDirection(DirectionText(d)) == Some(d)
  {
  }

  /** A transactions row: the owner `userId` is never null and `direction` is IN or OUT;
      `category`, `subCategory` and `notes` are nullable. `amount` is kept integral. */
  datatype Transaction = Transaction(
    id: nat,
    userId: nat,
    timestamp: int,
    amount: int,
    direction: Direction,
    category: Option<nat>,
    subCategory: Option<nat>,
    notes: Option<string>)

  /** A categories row. The request body's `name` and `notes` are stored as given, so a
      missing field is stored as NULL. */
  datatype Category = Category(id: nat, name: Option<string>, notes: Option<string>)

  /** A sub_categories row; `categoryId` names the parent category. */
  datatype SubCategory = SubCategory(id: nat, name: Option<string>, notes: Option<string>, categoryId: int)

  /** bcrypt reads at most the first 72 bytes of a password; the rest changes nothing. */
  const BcryptKeyLength: nat := 72

  /** The part of a password bcrypt hashes. */
  function Key(password: string): (k: string)
    ensures |k| <= BcryptKeyLength
    ensures k <= password
    ensures |password| <= BcryptKeyLength ==> k == password
  {
    if |password| <= BcryptKeyLength then password else password[..BcryptKeyLength]
  }

  /** What bcrypt stores for a password hashed with a given salt, represented by the key it
      was computed from. Only `Compare` looks inside. */
  datatype Digest = Digest(key: string, salt: nat)

  /** `bcrypt.hash(password, 10)`; the random salt is a parameter. */
  function Hash(password: string, salt: nat): (r: Digest) {
    Digest(Key(password), salt)
  }

  /** `bcrypt.compare(password, digest)`. */
  predicate Compare(password: string, digest: Digest) {
    digest.key == Key(password)
  }

  /** A password matches its own digest, whatever the salt; another password matches it
      exactly when the two agree on their first 72 characters, so for passwords of at most
      72 characters only the password itself does. */
  lemma CompareHash(password: string, other: string, salt: nat)
    ensures Compare(password, Hash(password, salt))
    ensures Compare(other, Hash(password, salt)) <==> Key(other) == Key(password)
    ensures |password| <= BcryptKeyLength && |other| <= BcryptKeyLength ==>
      (Compare(other, Hash(password, salt)) <==> other == password)
  {
  }

  /** Two passwords that differ only after their 72nd character match each other's digest. */
  lemma {:induction false} LongPasswordsCollide(prefix: string, a: string, b: string, salt: nat)
    requires |prefix| == BcryptKeyLength
    ensures Compare(prefix + b, Hash(prefix + a, salt))
  {
    assert (prefix + a)[..BcryptKeyLength] == prefix;
    assert (prefix + b)[..BcryptKeyLength] == prefix;
  }

  /** A users row; the password column holds a digest. */
  datatype User = User(id: nat, firstName: string, lastName: string, email: string, password: Digest)
}
