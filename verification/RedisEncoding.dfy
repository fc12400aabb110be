/** The texts under which the token limiter keeps scopes and reservations in one
    Redis hash, and why distinct values never share a text. */
module RedisEncoding {
  import opened LimitScopes
  import opened RedisTpm

  const DIGITS := "0123456789"

  function Decimal(n: nat): (s: string)
    ensures s != [] && forall i :: 0 <= i < |s| ==> s[i] in DIGITS
  {
    if n < 10 then [DIGITS[n]] else Decimal(n / 10) + [DIGITS[n % 10]]
  }

  predicate Plain(s: string) { ':' !in s }

  /** The number that a text of digits writes. */
  function Value(s: string): nat
    requires forall i :: 0 <= i < |s| ==> s[i] in DIGITS
  {
    if s == [] then 0 else Value(s[..|s| - 1]) * 10 + (s[|s| - 1] as int - '0' as int)
  }

  /** strconv.FormatUint loses nothing. */
  lemma {:induction false} DecimalParsesBack(n: nat)
    ensures Value(Decimal(n)) == n
  {
    assert forall d :: 0 <= d < 10 ==> DIGITS[d] as int - '0' as int == d;
    if n >= 10 {
      assert Decimal(n)[..|Decimal(n)| - 1] == Decimal(n / 10);
      DecimalParsesBack(n / 10);
    } else {
      assert Decimal(n)[..0] == [];
    }
  }

  lemma DecimalIsInjective(m: nat, n: nat)
    requires Decimal(m) == Decimal(n)
    ensures m == n
  {
    DecimalParsesBack(m);
    DecimalParsesBack(n);
  }

  lemma DecimalIsPlain(n: nat)
    ensures Plain(Decimal(n))
  {
  }

  function FirstColon(s: string): nat {
    if s == [] || s[0] == ':' then 0 else 1 + FirstColon(s[1..])
  }

  lemma {:induction false} ColonAfter(a: string, x: string)
    requires Plain(a)
    ensures FirstColon(a + ":" + x) == |a|
  {
    if a != [] {
      assert (a + ":" + x)[1..] == a[1..] + ":" + x;
      ColonAfter(a[1..], x);
    }
  }

  /** A separator that the first part cannot contain makes splitting unique. */
  lemma SplitsOnce(a: string, x: string, b: string, y: string)
    requires Plain(a) && Plain(b) && a + ":" + x == b + ":" + y
    ensures a == b && x == y
  {
    var s := a + ":" + x;
    ColonAfter(a, x);
    ColonAfter(b, y);
    assert s[..|a|] == a && s[..|b|] == b;
    assert s[|a| + 1..] == x && s[|b| + 1..] == y;
  }

  // ---- reservation records --------------------------------------------------

  /** redisTPMPendingValue and redisTPMSettledValue, for any fingerprint. */
  function RecordText(r: Record, fingerprint: Hierarchy -> string): string {
    match r
    case Pending(reserved, h) => "r" + ":" + (Decimal(reserved) + ":" + fingerprint(h))
    case Settled(reserved, actual,
                 h) => "s" + ":" + (Decimal(reserved) + ":" + (Decimal(actual) + ":" + fingerprint(h)))
  }

  /** With an injective digest, comparing record texts is comparing records. */
  lemma RecordTextIsFaithful(r: Record, q: Record, fingerprint: Hierarchy -> string)
    requires forall h, g :: fingerprint(h) == fingerprint(g) ==> h == g
    requires RecordText(r, fingerprint) == RecordText(q, fingerprint)
    ensures r == q
  {
    hide Decimal;
    var a, b := RecordText(r, fingerprint), RecordText(q, fingerprint);
    assert a[0] == b[0];
    DecimalIsPlain(r.reserved);
    DecimalIsPlain(q.reserved);
    if r.Pending? {
      assert q.Pending?;
      SplitsOnce("r", Decimal(r.reserved) + ":" + fingerprint(r.owner), "r",
                 Decimal(q.reserved) + ":" + fingerprint(q.owner));
      SplitsOnce(Decimal(r.reserved), fingerprint(r.owner), Decimal(q.reserved), fingerprint(q.owner));
    } else {
      assert q.Settled?;
      var x, y := Decimal(r.actual) + ":" + fingerprint(r.owner), Decimal(q.actual) + ":" + fingerprint(q.owner);
      SplitsOnce("s", Decimal(r.reserved) + ":" + x, "s", Decimal(q.reserved) + ":" + y);
      SplitsOnce(Decimal(r.reserved), x, Decimal(q.reserved), y);
      DecimalIsPlain(r.actual);
      DecimalIsPlain(q.actual);
      SplitsOnce(Decimal(r.actual), fingerprint(r.owner), Decimal(q.actual), fingerprint(q.owner));
      DecimalIsInjective(r.actual, q.actual);
    }
    DecimalIsInjective(r.reserved, q.reserved);
  }

  // ---- field names ----------------------------------------------------------

  /** Canonical UUID texts are distinct and hold no separator. */
  ghost predicate Canonical(uuid: nat -> string) {
    (forall a :: Plain(uuid(a))) && forall a, b :: uuid(a) == uuid(b) ==> a == b
  }

  /** redisRPMField of the valid scopes. */
  function FieldText(s: Scope, uuid: nat -> string): string
    requires s.Valid()
  {
    match s.kind
    case PlatformKind => "platform"
    case TenantKind => "tenant" + ":" + uuid(s.tenant.id)
    case ProjectKind => "project" + ":" + (uuid(s.tenant.id) + ":" + uuid(s.project.id))
    case KeyKind => "key" + ":" + (uuid(s.tenant.id) + ":" + (uuid(s.project.id) + ":" + uuid(s.key.id)))
  }

  function ReservationText(id: string): string {
    "reservation:" + id
  }

  /** Counters of different scopes, and counters and reservations, never share
      a field of the hash, whatever the reservation identifier holds. */
  lemma FieldsNeverCollide(s: Scope, t: Scope, uuid: nat -> string, id: string)
    requires s.Valid() && t.Valid() && Canonical(uuid)
    ensures FieldText(s, uuid) == FieldText(t, uuid) ==> s == t
    ensures FieldText(s, uuid) != ReservationText(id)
  {
    assert FieldText(s, uuid)[0] != ReservationText(id)[0];
    if FieldText(s, uuid) == FieldText(t, uuid) {
      SameKind(s, t, uuid);
      SameField(s, t, uuid);
    }
  }

  lemma SameKind(s: Scope, t: Scope, uuid: nat -> string)
    requires s.Valid() && t.Valid() && FieldText(s, uuid) == FieldText(t, uuid)
    ensures s.kind == t.kind
  {
    assert FieldText(s, uuid)[0] == FieldText(t, uuid)[0] && FieldText(s, uuid)[1] == FieldText(t, uuid)[1];
  }

  lemma SameField(s: Scope, t: Scope, uuid: nat -> string)
    requires s.Valid() && t.Valid() && s.kind == t.kind && Canonical(uuid) && FieldText(s, uuid) == FieldText(t, uuid)
    ensures s == t
  {
    match s.kind
    case PlatformKind =>
    case TenantKind =>
      SplitsOnce("tenant", uuid(s.tenant.id), "tenant", uuid(t.tenant.id));
    case ProjectKind =>
      SplitsOnce("project", uuid(s.tenant.id) + ":" + uuid(s.project.id), "project",
                 uuid(t.tenant.id) + ":" + uuid(t.project.id));
      SplitsOnce(uuid(s.tenant.id), uuid(s.project.id), uuid(t.tenant.id), uuid(t.project.id));
    case KeyKind =>
      var x, y := uuid(s.project.id) + ":" + uuid(s.key.id), uuid(t.project.id) + ":" + uuid(t.key.id);
      SplitsOnce("key", uuid(s.tenant.id) + ":" + x, "key", uuid(t.tenant.id) + ":" + y);
      SplitsOnce(uuid(s.tenant.id), x, uuid(t.tenant.id), y);
      SplitsOnce(uuid(s.project.id), uuid(s.key.id), uuid(t.project.id), uuid(t.key.id));
  }
}
