/** `registerData`: the visitor's contact details, asked for before the first booking. */
module Registration {

  datatype Profile = Profile(name: string, email: string, phone: string)

  /** The profile as the screen mounts it. */
  const Blank := Profile("", "", "")

  datatype Field = Name | Email | Phone

  function Get(p: Profile, f: Field): string
  {
    match f
    case Name => p.name
    case Email => p.email
    case Phone => p.phone
  }

  /** `handleRegisterChange(field, value)`: `{ ...prev, [field]: value }`. */
  function WithField(p: Profile, f: Field, v: string): (r: Profile)
    ensures Get(r, f) == v
    ensures forall g :: g != f ==> Get(r, g) == Get(p, g)
  {
    match f
    case Name => p.(name := v)
    case Email => p.(email := v)
    case Phone => p.(phone := v)
  }

  /** `name && email && phone`: the check `handleRegister` makes before posting. */
  predicate Complete(p: Profile)
  {
    p.name != "" && p.email != "" && p.phone != ""
  }

  /** The check asks for every field of the profile, and for nothing else. */
  lemma CompleteMeans(p: Profile)
    ensures Complete(p) <==> forall f :: Get(p, f) != ""
  {
    assert Get(p, Name) == p.name && Get(p, Email) == p.email && Get(p, Phone) == p.phone;
  }
}
