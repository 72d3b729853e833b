/** The text under which the cache (and the in-memory store's index) files a (customer, key) pair. Unlike
    the database's UNIQUE constraint it joins the two parts, so some pairs share a text. */
module CacheKey {
  import opened Domain

  function TextOf(pair: IdemKey): string {
    "idempotency:" + pair.customer + ":" + pair.key
  }

  /** Two customers of whom one name extends the other by a colon. */
  predicate Related(c: Customer, d: Customer) {
    c != d && (c + ":" <= d || d + ":" <= c)
  }

  /** Two customers for whom some keys are filed under one text. */
  ghost predicate MayCollide(c: Customer, d: Customer) {
    exists k: string, l: string :: k != "" && l != "" && TextOf(IdemKey(c, k)) == TextOf(IdemKey(d, l))
  }

  lemma TextCut(pair: IdemKey)
    ensures TextOf(pair)[12..] == pair.customer + ":" + pair.key
  {
    assert |"idempotency:"| == 12;
  }

  /** One customer's keys never collide. */
  lemma InjectivePerCustomer(c: Customer, k: string, l: string)
    requires TextOf(IdemKey(c, k)) == TextOf(IdemKey(c, l))
    ensures k == l
  {
    TextCut(IdemKey(c, k));
    TextCut(IdemKey(c, l));
    assert (c + ":" + k)[|c| + 1..] == k && (c + ":" + l)[|c| + 1..] == l;
  }

  lemma ShorterIsPrefix(c: Customer, d: Customer, k: string, l: string)
    requires c + ":" + k == d + ":" + l && |c| < |d|
    ensures c + ":" <= d
  {
    var text := c + ":" + k;
    assert text[..|c| + 1] == c + ":";
    assert text[..|d|] == d;
    assert text[..|d|][..|c| + 1] == text[..|c| + 1];
  }

  lemma SameLengthIsSame(c: Customer, d: Customer, k: string, l: string)
    requires c + ":" + k == d + ":" + l && |c| == |d|
    ensures c == d
  {
    assert (c + ":" + k)[..|c|] == c && (d + ":" + l)[..|d|] == d;
  }

  /** Pairs of unrelated customers that share a text are one pair. */
  lemma SameText(p: IdemKey, q: IdemKey)
    requires TextOf(p) == TextOf(q)
    ensures p == q || Related(p.customer, q.customer)
  {
    var c, d := p.customer, q.customer;
    TextCut(p);
    TextCut(q);
    if |c| < |d| {
      ShorterIsPrefix(c, d, p.key, q.key);
    } else if |d| < |c| {
      ShorterIsPrefix(d, c, q.key, p.key);
    } else {
      SameLengthIsSame(c, d, p.key, q.key);
      InjectivePerCustomer(c, p.key, q.key);
    }
  }

  lemma ExtendedCustomerCollides(c: Customer, d: Customer)
    requires c + ":" <= d
    ensures MayCollide(c, d) && MayCollide(d, c)
  {
    var l := "k";
    var k := d[|c| + 1..] + ":" + l;
    assert d == c + ":" + d[|c| + 1..];
    assert "idempotency:" + c + ":" + k == "idempotency:" + d + ":" + l;
    assert TextOf(IdemKey(c, k)) == TextOf(IdemKey(d, l));
  }

  /** Two different customers can collide exactly when one name extends the other by a colon, so the
      joined text stands for the pair only among customers of whom no two are related like that. */
  lemma CollisionIff(c: Customer, d: Customer)
    requires c != d
    ensures MayCollide(c, d) <==> Related(c, d)
  {
    if k: string, l: string :| k != "" && l != "" && TextOf(IdemKey(c, k)) == TextOf(IdemKey(d, l)) {
      SameText(IdemKey(c, k), IdemKey(d, l));
    }
    if c + ":" <= d { ExtendedCustomerCollides(c, d); }
    if d + ":" <= c { ExtendedCustomerCollides(d, c); }
  }
}
