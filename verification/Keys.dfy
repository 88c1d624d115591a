/** The composite text keys: provider\0model and type:provider:model:unix. */
module Keys {
  import opened Text

  /** providerIDPattern: ^[A-Za-z0-9][A-Za-z0-9._~-]*$ */
  predicate Slug(id: string) {
    && id != ""
    && AlphaNumeric(id[0])
    && forall i :: 0 <= i < |id| ==> AlphaNumeric(id[i]) || id[i] in ['.', '_', '~', '-']
  }

  lemma {:induction false} SlugHasNoSeparator(id: string)
    requires Slug(id)
    ensures ':' !in id && '/' !in id && '\0' !in id
  {
  }

  function IdentityKey(provider: string, model: string): string {
    provider + "\0" + model
  }

  lemma {:induction false} IdentityKeyInjective(p: string, m: string, q: string, n: string)
    requires Slug(p) && Slug(q)
    requires IdentityKey(p, m) == IdentityKey(q, n)
    ensures p == q && m == n
  {
    SlugHasNoSeparator(p);
    SlugHasNoSeparator(q);
    SplitFirst(p, m, q, n, '\0');
  }

  /** fmt.Sprintf("%s:%s:%s:%d", alertType, providerID, modelID, at.Unix()) */
  function AlertKeyText(alertType: string, provider: string, model: string, unix: int): string {
    alertType + ":" + provider + ":" + model + ":" + Decimal(unix)
  }

  /** The model id may contain ':'; the key is read from both ends. */
  lemma {:induction false} AlertKeyInjective(t: string, p: string, m: string, k: int,
                                             u: string, q: string, n: string, l: int)
    requires Slug(p) && Slug(q) && ':' !in t && ':' !in u
    requires AlertKeyText(t, p, m, k) == AlertKeyText(u, q, n, l)
    ensures t == u && p == q && m == n && k == l
  {
    SlugHasNoSeparator(p);
    SlugHasNoSeparator(q);
    DecimalHasNo(k, ':');
    DecimalHasNo(l, ':');
    SplitLast(t + ":" + p + ":" + m, Decimal(k), u + ":" + q + ":" + n, Decimal(l), ':');
    DecimalInjective(k, l);
    SubjectInjective(t, p, m, u, q, n);
  }

  /** The key without its time. */
  lemma {:induction false} SubjectInjective(t: string, p: string, m: string, u: string, q: string, n: string)
    requires ':' !in p && ':' !in q && ':' !in t && ':' !in u
    requires t + ":" + p + ":" + m == u + ":" + q + ":" + n
    ensures t == u && p == q && m == n
  {
    var x, y := p + ":" + m, q + ":" + n;
    assert t + ":" + p + ":" + m == t + [':'] + x;
    assert u + ":" + q + ":" + n == u + [':'] + y;
    SplitFirst(t, x, u, y, ':');
    SplitFirst(p, m, q, n, ':');
  }
}
