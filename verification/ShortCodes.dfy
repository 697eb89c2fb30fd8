/** Short-code generation and URL creation, from service/url_service.go. */
module ShortCodes {
  import opened Arithmetic
  import opened Wrappers
  import opened Faults
  import opened Strings
  import opened UrlStore

  const DIGITS: string := "0123456789"

  const LOWER: string := "abcdefghijklmnopqrstuvwxyz"

  const UPPER: string := "ABCDEFGHIJKLMNOPQRSTUVWXYZ"

  const BASE62: string := DIGITS + LOWER + UPPER

  const CODE_LENGTH := 6

  const MAX_ATTEMPTS := 10

  const MIN_ALIAS := 3

  const MAX_ALIAS := 32

  /** Bytes at or above this value are thrown away. */
  const REJECT_FROM := 248

  type Byte = b: int | 0 <= b < 256

  datatype GenerateError = BadLength | RandomFailed

  /** The character a byte selects. */
  function Digit(b: Byte): char {
    BASE62[b % 62]
  }

  /** The characters a sequence of bytes selects. */
  function Encode(bytes: seq<Byte>): (code: string)
    ensures |code| == |bytes|
    ensures forall i :: 0 <= i < |bytes| ==> code[i] == Digit(bytes[i])
  {
    seq(|bytes|, i requires 0 <= i < |bytes| => Digit(bytes[i]))
  }

  /** The subsequence of bytes that rejection sampling keeps. */
  function Accepted(draws: seq<Byte>): seq<Byte> {
    if draws == [] then []
    else
      var last := draws[|draws| - 1];
      Accepted(draws[..|draws| - 1]) + if last < REJECT_FROM then [last] else []
  }

  /** Acceptance looks at one byte at a time: those below 248 stay, in order, the others go. */
  lemma {:induction false} AcceptedJoins(a: seq<Byte>, b: seq<Byte>)
    ensures Accepted(a + b) == Accepted(a) + Accepted(b)
    ensures |a| == 1 ==> Accepted(a) == if a[0] < 248 then a else []
    decreases |b|
  {
    if b == [] {
      assert a + b == a;
    } else {
      AcceptedJoins(a, b[..|b| - 1]);
      assert (a + b)[..|a + b| - 1] == a + b[..|b| - 1];
    }
  }

  /** Reading further never changes what was already accepted. */
  lemma {:induction false} AcceptedIsPrefix(draws: seq<Byte>, k: nat)
    requires k <= |draws|
    ensures Accepted(draws[..k]) <= Accepted(draws)
    decreases |draws| - k
  {
    if k < |draws| {
      AcceptedIsPrefix(draws, k + 1);
      assert draws[..k + 1][..k] == draws[..k];
    } else {
      assert draws[..k] == draws;
    }
  }

  /** `draws` is what crypto/rand would deliver, one byte per Read; running past its end is
      the read that fails. `used` counts the bytes consumed. */
  method GenerateShortCode(length: int, draws: seq<Byte>) returns (r: Result<string, GenerateError>, used: nat)
    ensures used <= |draws|
    ensures length <= 0 ==> r == Err(BadLength) && used == 0
    ensures length > 0 && |Accepted(draws)| < length ==> r == Err(RandomFailed)
    ensures length > 0 && |Accepted(draws)| >= length ==>
              && r == Ok(Encode(Accepted(draws)[..length]))
              && |r.value| == length && (forall i :: 0 <= i < length ==> r.value[i] == BASE62[Accepted(draws)[i] % 62])
              && used > 0 && draws[used - 1] < REJECT_FROM
              && |Accepted(draws[..used])| == length
  {
    used := 0;
    if length <= 0 {
      return Err(BadLength), 0;
    }
    var code := new char[length];
    var i := 0;
    while i < length
      invariant 0 <= i <= length && used <= |draws|
      invariant |Accepted(draws[..used])| == i
      invariant code[..i] == Encode(Accepted(draws[..used]))
      invariant i > 0 && i == length ==> used > 0 && draws[used - 1] < REJECT_FROM
      decreases |draws| - used
    {
      AcceptedIsPrefix(draws, used);
      if used == |draws| {
        assert draws[..used] == draws;
        return Err(RandomFailed), used;
      }
      var randomByte := draws[used];
      assert draws[..used + 1][..used] == draws[..used];
      used := used + 1;
      if randomByte >= REJECT_FROM {
        continue;
      }
      code[i] := Digit(randomByte);
      i := i + 1;
    }
    AcceptedIsPrefix(draws, used);
    assert code[..] == code[..i] == Encode(Accepted(draws)[..length]);
    r := Ok(code[..]);
  }

  // ---- How many byte sequences produce each code ----

  /** All sequences made of a head and a tail. */
  function Extend<T(==)>(heads: set<T>, tails: set<seq<T>>): set<seq<T>> {
    set h <- heads, t <- tails :: [h] + t
  }

  lemma ExtendMember<T>(heads: set<T>, tails: set<seq<T>>, x: seq<T>)
    ensures x in Extend(heads, tails) <==> x != [] && x[0] in heads && x[1..] in tails
  {
    if x != [] && x[0] in heads && x[1..] in tails {
      assert x == [x[0]] + x[1..];
    }
    if x in Extend(heads, tails) {
      var h, t :| h in heads && t in tails && x == [h] + t;
      assert x[1..] == t;
    }
  }

  /** Sets in bijection have the same size. */
  lemma {:induction false} SameCount<A, B>(a: set<A>, b: set<B>, f: A -> B, g: B -> A)
    requires forall x <- a :: f(x) in b && g(f(x)) == x
    requires forall y <- b :: g(y) in a && f(g(y)) == y
    ensures |a| == |b|
  {
    if a == {} {
      if y :| y in b {
        assert g(y) in a;
      }
    } else {
      var x :| x in a;
      SameCount(a - {x}, b - {f(x)}, f, g);
    }
  }

  lemma ExtendOneCount<T>(h: T, tails: set<seq<T>>)
    ensures |Extend({h}, tails)| == |tails|
  {
    var add, drop := (t: seq<T>) => [h] + t, (x: seq<T>) => if x == [] then [] else x[1..];
    forall t | t in tails ensures add(t) in Extend({h}, tails) && drop(add(t)) == t {
      ExtendMember({h}, tails, [h] + t);
      assert ([h] + t)[1..] == t;
    }
    forall x | x in Extend({h}, tails) ensures drop(x) in tails && add(drop(x)) == x {
      ExtendMember({h}, tails, x);
      assert [x[0]] + x[1..] == x;
    }
    SameCount(tails, Extend({h}, tails), add, drop);
  }

  lemma ExtendSplit<T>(heads: set<T>, h: T, tails: set<seq<T>>)
    requires h in heads
    ensures Extend(heads, tails) == Extend(heads - {h}, tails) + Extend({h}, tails)
    ensures Extend(heads - {h}, tails) !! Extend({h}, tails)
  {
    forall x
      ensures x in Extend(heads, tails) <==> x in Extend(heads - {h}, tails) || x in Extend({h}, tails)
      ensures !(x in Extend(heads - {h}, tails) && x in Extend({h}, tails))
    {
      ExtendMember(heads, tails, x);
      ExtendMember(heads - {h}, tails, x);
      ExtendMember({h}, tails, x);
    }
  }

  lemma DisjointCount<T>(whole: set<T>, a: set<T>, b: set<T>)
    requires whole == a + b && a !! b
    ensures |whole| == |a| + |b|
  {
  }

  lemma OneMore(n: nat, t: nat)
    ensures n * t + t == (n + 1) * t
  {
  }

  lemma {:induction false} ExtendCount<T>(heads: set<T>, tails: set<seq<T>>)
    ensures |Extend(heads, tails)| == |heads| * |tails|
  {
    if heads == {} {
      assert Extend(heads, tails) == {};
    } else {
      var h :| h in heads;
      ExtendSplit(heads, h, tails);
      DisjointCount(Extend(heads, tails), Extend(heads - {h}, tails), Extend({h}, tails));
      ExtendCount(heads - {h}, tails);
      ExtendOneCount(h, tails);
      DisjointCount(heads, heads - {h}, {h});
      OneMore(|heads - {h}|, |tails|);
    }
  }

  /** Value of a character of the alphabet. */
  function DigitValue(c: char): int {
    if '0' <= c <= '9' then c as int - '0' as int
    else if 'a' <= c <= 'z' then c as int - 'a' as int + 10
    else if 'A' <= c <= 'Z' then c as int - 'A' as int + 36
    else -1
  }

  lemma LettersRun(k: nat)
    requires k < 26
    ensures LOWER[k] as int == 'a' as int + k
    ensures UPPER[k] as int == 'A' as int + k
  {
  }

  /** The 62 characters of the alphabet are distinct: each one tells its position. */
  lemma DigitValueInverts(k: int)
    requires 0 <= k < 62
    ensures DigitValue(BASE62[k]) == k
  {
    if 10 <= k < 36 {
      LettersRun(k - 10);
    } else if 36 <= k {
      LettersRun(k - 36);
    }
  }

  /** Characters of the alphabet. */
  const ALPHABET: set<char> := set c: char | 0 <= DigitValue(c) < 62 && BASE62[DigitValue(c)] == c

  lemma {:induction false} DistinctCount(s: string)
    requires forall i, j :: 0 <= i < j < |s| ==> s[i] != s[j]
    ensures |set c | c in s| == |s|
  {
    if s == [] {
    } else {
      var n := |s| - 1;
      DistinctCount(s[..n]);
      assert s == s[..n] + [s[n]];
      assert (set c | c in s) == (set c | c in s[..n]) + {s[n]};
    }
  }

  lemma AlphabetCount()
    ensures |ALPHABET| == 62
  {
    forall i, j | 0 <= i < j < |BASE62| ensures BASE62[i] != BASE62[j] {
      DigitValueInverts(i);
      DigitValueInverts(j);
    }
    DistinctCount(BASE62);
    forall c <- BASE62 ensures c in ALPHABET {
      var i :| 0 <= i < |BASE62| && BASE62[i] == c;
      DigitValueInverts(i);
    }
    assert ALPHABET == set c | c in BASE62;
  }

  /** Accepted bytes that select character c. */
  function BytesFor(c: char): set<Byte> {
    set b: Byte | 0 <= b < REJECT_FROM && Digit(b) == c
  }

  lemma Residues(b: Byte, v: int)
    requires 0 <= v < 62
    ensures b < REJECT_FROM && b % 62 == v <==> b == v || b == v + 62 || b == v + 124 || b == v + 186
  {
  }

  /** Every character is selected by exactly four of the accepted bytes. */
  lemma FourBytesEach(c: char)
    requires c in ALPHABET
    ensures |BytesFor(c)| == 4
  {
    var v := DigitValue(c);
    var four: set<Byte> := {v, v + 62, v + 124, v + 186};
    DigitValueInverts(v);
    forall b: Byte ensures b in BytesFor(c) <==> b in four {
      DigitValueInverts(b % 62);
      Residues(b, v);
    }
    assert BytesFor(c) == four;
  }

  /** Accepted byte sequences that the sampler turns into `code`. */
  function Preimages(code: string): set<seq<Byte>> {
    if code == "" then {[]} else Extend(BytesFor(code[0]), Preimages(code[1..]))
  }

  lemma {:induction false} AcceptedAll(s: seq<Byte>)
    ensures |Accepted(s)| <= |s|
    ensures Accepted(s) == s <==> forall i :: 0 <= i < |s| ==> s[i] < REJECT_FROM
  {
    if s == [] {
    } else {
      var front, last := s[..|s| - 1], s[|s| - 1];
      AcceptedAll(front);
      assert s == front + [last];
      if last < REJECT_FROM {
        assert (Accepted(front) + [last])[..|Accepted(front)|] == Accepted(front);
        assert Accepted(s) == s ==> |Accepted(front)| == |front| && Accepted(front) == s[..|front|];
        assert forall i :: 0 <= i < |front| ==> front[i] == s[i];
      }
    }
  }

  /** Membership says exactly: all bytes accepted, and the sampler's code is `code`. */
  lemma {:induction false} PreimagesMeaning(code: string, s: seq<Byte>)
    ensures s in Preimages(code) <==> |s| == |code| && forall i :: 0 <= i < |s| ==>
        s[i] < REJECT_FROM && Digit(s[i]) == code[i]
  {
    if code != "" {
      ExtendMember(BytesFor(code[0]), Preimages(code[1..]), s);
      if s == [] {
      } else {
        PreimagesMeaning(code[1..], s[1..]);
        if |s| == |code| {
          assert forall i :: 1 <= i < |s| ==> s[i] == s[1..][i - 1] && code[i] == code[1..][i - 1];
          assert forall i :: 0 <= i < |s| - 1 ==> s[i + 1] == s[1..][i] && code[i + 1] == code[1..][i];
        }
      }
    }
  }

  /** Preimages are exactly the draws the sampler keeps entirely and turns into `code`. */
  lemma PreimagesAreSamples(code: string, s: seq<Byte>)
    ensures s in Preimages(code) <==> Accepted(s) == s && Encode(s) == code
  {
    PreimagesMeaning(code, s);
    AcceptedAll(s);
  }

  /** Each code has exactly 4^n accepted byte sequences of its length n. */
  lemma {:induction false} PreimagesCount(code: string)
    requires forall c <- code :: c in ALPHABET
    ensures |Preimages(code)| == Pow(4, |code|)
  {
    if code == "" {
    } else {
      PreimagesCount(code[1..]);
      FourBytesEach(code[0]);
      ExtendCount(BytesFor(code[0]), Preimages(code[1..]));
    }
  }

  /** All codes of length n. */
  function Codes(n: nat): set<string> {
    if n == 0 then {""} else Extend(ALPHABET, Codes(n - 1))
  }

  lemma {:induction false} CodesMeaning(n: nat, code: string)
    ensures code in Codes(n) <==> |code| == n && forall c <- code :: c in ALPHABET
  {
    if n == 0 {
    } else {
      ExtendMember(ALPHABET, Codes(n - 1), code);
      if code != "" {
        CodesMeaning(n - 1, code[1..]);
        assert code == [code[0]] + code[1..];
      }
    }
  }

  lemma {:induction false} CodesCount(n: nat)
    ensures |Codes(n)| == Pow(62, n)
  {
    if n == 0 {
    } else {
      CodesCount(n - 1);
      AlphabetCount();
      ExtendCount(ALPHABET, Codes(n - 1));
    }
  }

  /** The sampler is unbiased: the 62^n codes share the 248^n accepted byte sequences of
      length n equally, 4^n for each. */
  lemma SamplerIsUniform(n: nat, code: string)
    requires code in Codes(n)
    ensures |Codes(n)| == Pow(62, n)
    ensures |Preimages(code)| == Pow(4, n)
    ensures |Codes(n)| * |Preimages(code)| == Pow(248, n)
  {
    CodesMeaning(n, code);
    CodesCount(n);
    PreimagesCount(code);
    PowProduct(62, 4, n);
  }

  // ---- Creating a URL ----

  datatype CreateError =
    | InvalidURL
    | InvalidUser
    | RandomUnavailable
    | CodesExhausted
    | AliasLength
    | AliasCharacters
    | AliasTaken
    | StoreFailed

  /** len() of a Go string counts UTF-8 bytes. */
  function ByteLength(s: string): nat {
    if s == "" then 0
    else
      var n := s[0] as int;
      (if n < 0x80 then 1 else if n < 0x800 then 2 else if n < 0x1_0000 then 3 else 4) + ByteLength(s[1..])
  }

  /** UTF-8 takes one to four bytes for a character, and one for ASCII. */
  lemma {:induction false} ByteLengthMeans(s: string)
    ensures |s| <= ByteLength(s) <= 4 * |s|
    ensures ByteLength(s) == |s| <==> forall i :: 0 <= i < |s| ==> s[i] as int < 0x80
  {
    if s == "" {
    } else {
      ByteLengthMeans(s[1..]);
      assert forall i :: 1 <= i < |s| ==> s[i] == s[1..][i - 1];
      assert forall i :: 0 <= i < |s| - 1 ==> s[1..][i] == s[i + 1];
    }
  }

  /** The character class of customAliasPattern. */
  predicate AliasChar(c: char) {
    'A' <= c <= 'Z' || 'a' <= c <= 'z' || '0' <= c <= '9' || c == '_' || c == '-'
  }

  predicate AliasShaped(alias: string) {
    alias != "" && forall c <- alias :: AliasChar(c)
  }

  /** What every stored short code looks like. */
  predicate CodeShaped(code: string) {
    MIN_ALIAS <= |code| <= MAX_ALIAS && AliasShaped(code)
  }

  lemma {:induction false} AsciiLength(s: string)
    requires forall c <- s :: AliasChar(c)
    ensures ByteLength(s) == |s|
  {
    if s == "" {
    } else {
      assert AliasChar(s[0]);
      AsciiLength(s[1..]);
    }
  }

  /** Codes of the sampler have the shape of an alias of six characters. */
  lemma GeneratedCodesAreShaped(bytes: seq<Byte>)
    requires |bytes| == CODE_LENGTH
    ensures CodeShaped(Encode(bytes)) && |Encode(bytes)| == CODE_LENGTH
    ensures Encode(bytes) in Codes(CODE_LENGTH)
  {
    forall i | 0 <= i < |bytes|
      ensures AliasChar(Digit(bytes[i])) && Digit(bytes[i]) in ALPHABET
    {
      DigitValueInverts(bytes[i] % 62);
    }
    CodesMeaning(CODE_LENGTH, Encode(bytes));
  }

  /** The sampler turns these random bytes into the code. */
  predicate Draws(draws: seq<Byte>, code: string) {
    |Accepted(draws)| >= CODE_LENGTH && code == Encode(Accepted(draws)[..CODE_LENGTH])
  }

  predicate GeneratedShape(code: string) {
    |code| == CODE_LENGTH && CodeShaped(code)
  }

  /** So every code CreateShortURL tries could also be asked for as an alias. */
  lemma DrawnCodesAreShaped(draws: seq<Byte>, code: string)
    requires Draws(draws, code)
    ensures GeneratedShape(code) && code in Codes(CODE_LENGTH)
  {
    GeneratedCodesAreShaped(Accepted(draws)[..CODE_LENGTH]);
  }

  /** The first n codes were sent to the database and found taken there. */
  predicate AllCollided(taken: map<string, int>, tried: seq<string>, fates: seq<Fate>, n: nat)
    requires n <= |tried| && n <= |fates|
  {
    forall k :: 0 <= k < n ==> tried[k] in taken && fates[k] == Normal
  }

  /** The row CreateShortURL and CreateShortURLWithAlias insert. */
  function NewUrl(code: string, alias: Option<string>, originalURL: string, userID: int): Url {
    Url(0, code, alias, TrimSpace(originalURL), Some(userID), 0, None, true)
  }

  /** The row of a new link: the trimmed destination for its user, active and without expiry. */
  predicate IsLink(u: Url, code: string, alias: Option<string>, originalURL: string, userID: int) {
    && u.shortCode == code && u.customAlias == alias && u.originalURL == TrimSpace(originalURL)
    && u.userID == Some(userID) && u.expiresAt == None && u.isActive
  }

  /** A new link leads to its destination at every time until it is changed. */
  ghost predicate LeadsTo(t: Table, u: Url) {
    forall at :: FindByShortCode(t, u.shortCode, at) == Ok(u)
  }

  /** The second table has this link more, and nothing else has changed. */
  ghost predicate AddsLink(t: Table, t': Table, u: Url, code: string, alias: Option<string>, originalURL: string,
                           userID: int, now: int) {
    && IsLink(u, code, alias, originalURL, userID) && u.createdAt == now
    && u.id !in t.rows && t'.rows == t.rows[u.id := u] && LeadsTo(t', u)
  }

  ghost predicate GainsLink(t: Table, t': Table, code: string, alias: Option<string>, originalURL: string, userID: int,
                            now: int) {
    exists id :: id in t'.rows && AddsLink(t, t', t'.rows[id], code, alias, originalURL, userID, now)
  }

  lemma InsertAddsLink(t: Table, code: string, alias: Option<string>, originalURL: string, userID: int, now: int)
    requires Consistent(t) && code !in t.codes
    ensures var (t', r) := Insert(t, NewUrl(code, alias, originalURL, userID), now);
            r.Ok? && AddsLink(t, t', r.value, code, alias, originalURL, userID, now)
  {
  }

  /** repository.Create of a new link; a statement whose reply is lost is an error too. */
  method InsertURL(repo: URLRepository, code: string, alias: Option<string>, originalURL: string, userID: int, now: int,
                   fate: Fate)
    returns (r: Result<Url, StoreError>)
    requires Consistent(repo.table)
    modifies repo
    ensures Consistent(repo.table)
    ensures r.Ok? <==> fate == Normal && code !in old(repo.table).codes
    ensures r == Err(UniqueViolation) <==> fate == Normal && code in old(repo.table).codes
    ensures fate == LostBefore || code in old(repo.table).codes ==> repo.table == old(repo.table)
    ensures r.Ok? ==> AddsLink(old(repo.table), repo.table, r.value, code, alias, originalURL, userID, now)
    ensures fate == LostAfter && code !in old(repo.table).codes ==>
              GainsLink(old(repo.table), repo.table, code, alias, originalURL, userID, now)
  {
    r := Err(Unavailable);
    if code !in repo.table.codes {
      InsertAddsLink(repo.table, code, alias, originalURL, userID, now);
    }
    if fate != LostBefore {
      var reply := repo.Create(NewUrl(code, alias, originalURL, userID), now);
      assert reply.Ok? ==> reply.value.id in repo.table.rows;
      if fate == Normal {
        r := reply;
      }
    }
  }

  /** URLService.CreateShortURL. `urlValid` is the verdict of validateURL; `draws[k]` is the
      randomness of attempt k and `fates[k]` what happens to its INSERT. `tried` lists the
      codes that were sent to the database. */
  method CreateShortURL(repo: URLRepository, originalURL: string, userID: int, urlValid: bool,
                        draws: seq<seq<Byte>>, fates: seq<Fate>, now: int)
    returns (r: Result<Url, CreateError>, tried: seq<string>)
    requires Consistent(repo.table)
    requires |draws| == |fates| == MAX_ATTEMPTS
    modifies repo
    ensures Consistent(repo.table)
    ensures |tried| <= 10
    ensures forall k :: 0 <= k < |tried| ==> Draws(draws[k], tried[k])
    // All but the last code tried were already taken.
    ensures |tried| > 0 ==> AllCollided(old(repo.table).codes, tried, fates, |tried| - 1)
    // Success adds exactly the row that carries the returned code.
    ensures r.Ok? ==>
              && urlValid && userID > 0 && |tried| > 0 && tried[|tried| - 1] == r.value.shortCode
              && AddsLink(old(repo.table), repo.table, r.value, r.value.shortCode, None, originalURL, userID, now)
    // A failure leaves the table alone, unless the last INSERT committed and its reply was lost.
    ensures r.Err? && repo.table != old(repo.table) ==>
              && |tried| > 0 && fates[|tried| - 1] == LostAfter && r == Err(StoreFailed)
              && GainsLink(old(repo.table), repo.table, tried[|tried| - 1], None, originalURL, userID, now)
    ensures r == Err(CodesExhausted) <==>
              && urlValid && userID > 0 && |tried| == MAX_ATTEMPTS
              && AllCollided(old(repo.table).codes, tried, fates, MAX_ATTEMPTS)
    // Every other outcome has one cause too.
    ensures r == Err(InvalidURL) <==> !urlValid
    ensures r == Err(InvalidUser) <==> urlValid && userID <= 0
    ensures r == Err(RandomUnavailable) <==>
              && urlValid && userID > 0 && |tried| < MAX_ATTEMPTS && |Accepted(draws[|tried|])| < CODE_LENGTH
              && AllCollided(old(repo.table).codes, tried, fates, |tried|)
    ensures r == Err(StoreFailed) <==> |tried| > 0 && fates[|tried| - 1] != Normal
    ensures r.Ok? <==> |tried| > 0 && fates[|tried| - 1] == Normal && tried[|tried| - 1] !in old(repo.table).codes
  {
    tried := [];
    if !urlValid {
      return Err(InvalidURL), tried;
    }
    if userID <= 0 {
      return Err(InvalidUser), tried;
    }
    for attempt := 0 to MAX_ATTEMPTS
      invariant |tried| == attempt && repo.table == old(repo.table)
      invariant forall k :: 0 <= k < |tried| ==> Draws(draws[k], tried[k])
      invariant AllCollided(repo.table.codes, tried, fates, attempt)
    {
      var generated, used := GenerateShortCode(CODE_LENGTH, draws[attempt]);
      if generated.Err? {
        return Err(RandomUnavailable), tried;
      }
      var code := generated.value;
      tried := tried + [code];
      var created := InsertURL(repo, code, None, originalURL, userID, now, fates[attempt]);
      if created.Ok? {
        return Ok(created.value), tried;
      }
      if created.error != UniqueViolation {
        return Err(StoreFailed), tried;
      }
    }
    r := Err(CodesExhausted);
  }

  /** URLService.CreateShortURLWithAlias. */
  method CreateShortURLWithAlias(repo: URLRepository, originalURL: string, alias: string, userID: int,
                                 urlValid: bool, fate: Fate, now: int)
    returns (r: Result<Url, CreateError>)
    requires Consistent(repo.table)
    modifies repo
    ensures Consistent(repo.table)
    ensures r.Ok? <==> urlValid && userID > 0 && CodeShaped(TrimSpace(alias)) && fate == Normal
                       && TrimSpace(alias) !in old(repo.table).codes
    ensures r.Ok? ==> r.value.shortCode == TrimSpace(alias) && r.value.customAlias == Some(TrimSpace(alias))
                      && AddsLink(old(repo.table), repo.table, r.value, TrimSpace(alias), Some(TrimSpace(alias)),
                                  originalURL, userID, now)
    // A name that is stored has 3 to 32 letters, digits, hyphens and underscores.
    ensures r.Ok? ==>
              && 3 <= |r.value.shortCode| <= 32
              && forall c <- r.value.shortCode ::
                   'A' <= c <= 'Z' || 'a' <= c <= 'z' || '0' <= c <= '9' || c in "_-"
    ensures r == Err(AliasTaken) <==> urlValid && userID > 0 && CodeShaped(TrimSpace(alias)) && fate == Normal
                                      && TrimSpace(alias) in old(repo.table).codes
    ensures r == Err(StoreFailed) <==> urlValid && userID > 0 && CodeShaped(TrimSpace(alias)) && fate != Normal
    ensures r == Err(AliasLength) <==>
              urlValid && userID > 0 && !(3 <= ByteLength(TrimSpace(alias)) <= 32)
    ensures r.Err? && repo.table != old(repo.table) ==>
              && r == Err(StoreFailed) && fate == LostAfter
              && GainsLink(old(repo.table), repo.table, TrimSpace(alias), Some(TrimSpace(alias)), originalURL, userID,
                           now)
  {
    if !urlValid {
      return Err(InvalidURL);
    }
    if userID <= 0 {
      return Err(InvalidUser);
    }
    var name := TrimSpace(alias);
    if AliasShaped(name) {
      AsciiLength(name);
    }
    if ByteLength(name) < MIN_ALIAS || ByteLength(name) > MAX_ALIAS {
      return Err(AliasLength);
    }
    if !AliasShaped(name) {
      return Err(AliasCharacters);
    }
    var created := InsertURL(repo, name, Some(name), originalURL, userID, now, fate);
    if created.Ok? {
      return Ok(created.value);
    }
    r := Err(if created.error == UniqueViolation then AliasTaken else StoreFailed);
  }
}
