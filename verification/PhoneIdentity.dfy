/** Who owns which mobile number: verified numbers, numbers an owner approved for a guest but
    that still need proof, and the contact number on the guest's profile. */
module PhoneIdentity {
  import opened Wrappers

  type User = nat
  /** A normalised number. */
  type Phone = nat
  type Version = nat

  datatype Binding = Binding(phone: Phone, version: Version)

  /** The editable contact field: empty, a text that is no number, or a number in one of its
      spellings; spelling 0 is the normalised text. */
  datatype Contact = Empty | Unreadable(text: nat) | Number(phone: Phone, spelling: nat)

  function Plain(p: Phone): Contact { Number(p, 0) }

  /** `issued` holds every version number ever drawn. */
  datatype Owners = Owners(
    verified: map<User, Binding>, approved: map<User, Binding>,
    contacts: map<User, Contact>, members: set<User>, issued: set<Version>)

  datatype Change = Change(
    user: User, phone: Option<Phone>, permitted: bool, emailChanged: bool,
    expectedPhone: Contact, expectedBinding: Option<Version>, expectedPending: Option<Version>)

  function Holders(table: map<User, Binding>, p: Phone): set<User> { set u | u in table && table[u].phone == p }

  predicate IdentityLocked(o: Owners, u: User)
  {
    u in o.members || u in o.verified || u in o.approved
  }

  function ContactOf(o: Owners, u: User): Contact { if u in o.contacts then o.contacts[u] else Empty }

  /** The contact is empty or reads as this number, however it is spelt. */
  predicate Accords(contact: Contact, p: Phone)
  {
    contact.Empty? || (contact.Number? && contact.phone == p)
  }

  predicate CanBind(o: Owners, u: User, p: Phone)
  {
    && u !in o.approved && Holders(o.approved, p) == {}
    && (!IdentityLocked(o, u) || Accords(ContactOf(o, u), p))
  }

  /** The number an owner sees: pending approval first, then the verified one, then the contact. */
  function CurrentPhone(o: Owners, u: User): Contact
  {
    if u in o.approved then Plain(o.approved[u].phone)
    else if u in o.verified then Plain(o.verified[u].phone)
    else ContactOf(o, u)
  }

  function VersionIn(table: map<User, Binding>, u: User): Option<Version>
  {
    if u in table then Some(table[u].version) else None
  }

  function Wanted(r: Change): Contact { if r.phone.Some? then Plain(r.phone.value) else Empty }

  /** Whether an owner-approved identity change goes through. */
  predicate Approvable(o: Owners, r: Change)
  {
    && r.permitted
    && r.expectedPhone == CurrentPhone(o, r.user)
    && r.expectedBinding == VersionIn(o.verified, r.user) && r.expectedPending == VersionIn(o.approved, r.user)
    && (r.phone.Some? ==>
          Holders(o.verified, r.phone.value) <= {r.user} && Holders(o.approved, r.phone.value) <= {r.user})
    && (CurrentPhone(o, r.user) != Empty ==> r.phone.Some?)
    && (r.emailChanged || CurrentPhone(o, r.user) != Wanted(r))
  }

  /** A changed number loses its verification and waits for proof under a new version. */
  function Approved(o: Owners, r: Change, newVersion: Version): Owners
    requires Approvable(o, r)
  {
    if CurrentPhone(o, r.user) == Wanted(r) then o.(contacts := o.contacts[r.user := ContactOf(o, r.user)])
    else o.(verified := o.verified - {r.user},
            approved := o.approved[r.user := Binding(r.phone.value, newVersion)],
            contacts := o.contacts[r.user := Plain(r.phone.value)],
            issued := o.issued + {newVersion})
  }

  /** Records a proven number unless the account or the number already has a verified one. */
  function Bound(o: Owners, u: User, p: Phone, newVersion: Version): Option<Owners>
  {
    if u in o.verified || Holders(o.verified, p) != {} then None
    else Some(o.(verified := o.verified[u := Binding(p, newVersion)], issued := o.issued + {newVersion}))
  }

  /** The proven number also becomes the contact of an existing profile. */
  function WithContact(o: Owners, u: User, p: Phone): Owners
  {
    o.(contacts := if u in o.contacts then o.contacts[u := Plain(p)] else o.contacts)
  }

  // ----- Ownership -----

  ghost predicate OneUserEach(table: map<User, Binding>)
  {
    forall a, b | a in table && b in table && table[a].phone == table[b].phone :: a == b
  }

  ghost predicate VersionsIssued(o: Owners)
  {
    && (forall u | u in o.verified :: o.verified[u].version in o.issued)
    && (forall u | u in o.approved :: o.approved[u].version in o.issued)
  }

  /** A number has one owner in either table, and a user appears in one table only. */
  ghost predicate Disjoint(o: Owners)
  {
    && OneUserEach(o.verified) && OneUserEach(o.approved)
    && o.verified.Keys !! o.approved.Keys
    && (forall a, b | a in o.verified && b in o.approved :: o.verified[a].phone != o.approved[b].phone)
  }

  ghost predicate OwnersFit(o: Owners) { Disjoint(o) && VersionsIssued(o) }

  /** This very binding stands, verified or approved. */
  predicate Stands(o: Owners, u: User, b: Binding)
  {
    (u in o.verified && o.verified[u] == b) || (u in o.approved && o.approved[u] == b)
  }

  /** From `o` to `p` versions are only drawn fresh, so a binding that no longer stands does
      not come back. */
  ghost predicate Renews(o: Owners, p: Owners)
  {
    && o.issued <= p.issued
    && (forall u, b: Binding | b.version in o.issued && Stands(p, u, b) :: Stands(o, u, b))
  }

  lemma ApprovalKeepsOwners(o: Owners, r: Change, newVersion: Version)
    requires OwnersFit(o) && Approvable(o, r) && newVersion !in o.issued
    ensures OwnersFit(Approved(o, r, newVersion)) && Renews(o, Approved(o, r, newVersion))
  {
    var p := Approved(o, r, newVersion);
    if CurrentPhone(o, r.user) != Wanted(r) {
      var n := r.phone.value;
      forall u | u in p.verified ensures p.verified[u].phone != n {
        assert u in Holders(o.verified, p.verified[u].phone);
      }
      forall u | u in o.approved && u != r.user ensures o.approved[u].phone != n {
        assert u in Holders(o.approved, o.approved[u].phone);
      }
    }
  }

  lemma BindingKeepsOwners(o: Owners, u: User, n: Phone, newVersion: Version)
    requires OwnersFit(o) && newVersion !in o.issued
    requires u !in o.approved && Holders(o.approved, n) == {} && Bound(o, u, n, newVersion).Some?
    ensures OwnersFit(Bound(o, u, n, newVersion).value) && Renews(o, Bound(o, u, n, newVersion).value)
  {
    forall a | a in o.verified ensures o.verified[a].phone != n {
      assert a in Holders(o.verified, o.verified[a].phone);
    }
    forall a | a in o.approved ensures o.approved[a].phone != n {
      assert a in Holders(o.approved, o.approved[a].phone);
    }
  }

  /** An approved number that was proven moves to the verified table under a new version. */
  function Promoted(o: Owners, u: User, p: Phone, newVersion: Version): Option<Owners>
  {
    Bound(o.(approved := o.approved - {u}), u, p, newVersion)
  }

  lemma PromotionKeepsOwners(o: Owners, u: User, newVersion: Version)
    requires OwnersFit(o) && newVersion !in o.issued && u in o.approved
    ensures Promoted(o, u, o.approved[u].phone, newVersion).Some?
    ensures var p := Promoted(o, u, o.approved[u].phone, newVersion).value; OwnersFit(p) && Renews(o, p)
  {
  }

  lemma RenewsTransitive(a: Owners, b: Owners, c: Owners)
    requires Renews(a, b) && Renews(b, c)
    ensures Renews(a, c)
  {
  }
}
