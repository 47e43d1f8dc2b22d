/**
 A writable key path, as the pair of functions it stands for: reading one part
 of a whole value, and rebuilding the whole value with that part replaced.
 */
module KeyPaths {

  datatype Lens<!V, !T> = Lens(get: V -> T, put: (V, T) -> V)

  /**
   The laws a writable key path obeys: reading back a written part gives what
   was written, writing back what was read changes nothing, and a second write
   to the same part overrides the first.
   */
  ghost predicate Lawful<V(!new), T(!new)>(l: Lens<V, T>)
  {
    && (forall v, t :: l.get(l.put(v, t)) == t)
    && (forall v :: l.put(v, l.get(v)) == v)
    && (forall v, t, t' :: l.put(l.put(v, t), t') == l.put(v, t'))
  }

  /** The record the repository's example editor works on. */
  datatype User = User(firstName: string, lastName: string)

  /** The key path `\User.firstName`. */
  function FirstName(): Lens<User, string>
  {
    Lens((u: User) => u.firstName, (u: User, t) => u.(firstName := t))
  }

  /** The key path `\User.lastName`. */
  function LastName(): Lens<User, string>
  {
    Lens((u: User) => u.lastName, (u: User, t) => u.(lastName := t))
  }

  /**
   Both key paths of `User` are lawful, and each leaves the part the other
   one reads untouched.
   */
  lemma UserKeyPaths()
    ensures Lawful(FirstName()) && Lawful(LastName())
    ensures forall u: User, t :: LastName().get(FirstName().put(u, t)) == u.lastName
    ensures forall u: User, t :: FirstName().get(LastName().put(u, t)) == u.firstName
  {
  }
}
