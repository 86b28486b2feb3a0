/** `APIKeyManager`: the Google API keys listed comma-separated in the
    `GOOGLE_API_KEYS` environment variable, handed out round-robin. The
    variable's value is a parameter; `None` stands for an unset variable. */
module ApiKeyManager {
  import opened Wrappers
  import opened PyStr
  import SeqFacts

  /** A usable key: non-empty, no outer whitespace, no comma. */
  predicate CleanKey(k: string) {
    |k| > 0 && Trimmed(k) && ',' !in k
  }

  /** No piece holds a comma, as after splitting at commas. */
  predicate CommaFree(pieces: seq<string>) {
    forall i :: 0 <= i < |pieces| ==> ',' !in pieces[i]
  }

  predicate AllClean(keys: seq<string>) {
    forall i :: 0 <= i < |keys| ==> CleanKey(keys[i])
  }

  /** Every piece is empty once stripped. */
  predicate AllBlank(pieces: seq<string>) {
    forall j :: 0 <= j < |pieces| ==> Strip(pieces[j]) == ""
  }

  /** The stripped pieces that are not empty, in order. */
  function CleanPieces(pieces: seq<string>): (keys: seq<string>)
    requires CommaFree(pieces)
    ensures |keys| <= |pieces|
    ensures AllClean(keys)
  {
    if |pieces| == 0 then []
    else
      var rest := CleanPieces(pieces[1..]);
      var k := Strip(pieces[0]);
      assert forall j :: 0 <= j < |pieces| - 1 ==> pieces[1..][j] == pieces[j + 1];
      if k == "" then rest
      else
        StripKeepsOut(pieces[0], ',');
        ConsClean(k, rest);
        [k] + rest
  }

  /** No key is kept exactly when every piece is blank. */
  lemma {:induction false} CleanPiecesBlank(pieces: seq<string>)
    requires CommaFree(pieces)
    ensures CleanPieces(pieces) == [] <==> AllBlank(pieces)
  {
    if |pieces| > 0 {
      var rest := pieces[1..];
      assert CommaFree(rest) by {
        assert forall j :: 0 <= j < |rest| ==> rest[j] == pieces[j + 1];
      }
      CleanPiecesBlank(rest);
      assert AllBlank(pieces) <==> Strip(pieces[0]) == "" && AllBlank(rest) by {
        assert forall j :: 1 <= j < |pieces| ==> pieces[j] == rest[j - 1];
      }
    }
  }

  /** The first piece is kept, stripped, unless it strips to nothing; the
      rest follow. */
  lemma CleanPiecesHead(pieces: seq<string>)
    requires |pieces| > 0 && CommaFree(pieces)
    ensures CommaFree(pieces[1..])
    ensures CleanPieces(pieces) ==
      (if Strip(pieces[0]) == "" then [] else [Strip(pieces[0])]) + CleanPieces(pieces[1..])
  {
    assert forall j :: 0 <= j < |pieces| - 1 ==> pieces[1..][j] == pieces[j + 1];
  }

  /** The keys of two runs of pieces are those of the first, then those of
      the second: order is kept. */
  lemma {:induction false} CleanPiecesAppend(a: seq<string>, b: seq<string>)
    requires CommaFree(a + b)
    ensures CommaFree(a) && CommaFree(b)
    ensures CleanPieces(a + b) == CleanPieces(a) + CleanPieces(b)
    decreases |a|
  {
    CommaFreeParts(a, b);
    if |a| == 0 {
      assert a + b == b;
    } else {
      var ab := a + b;
      assert ab[1..] == a[1..] + b;
      assert ab[0] == a[0];
      CleanPiecesHead(ab);
      CleanPiecesHead(a);
      CleanPiecesAppend(a[1..], b);
      SeqFacts.AppendAssoc(if Strip(a[0]) == "" then [] else [Strip(a[0])], CleanPieces(a[1..]), CleanPieces(b));
    }
  }

  lemma CommaFreeParts(a: seq<string>, b: seq<string>)
    requires CommaFree(a + b)
    ensures CommaFree(a) && CommaFree(b)
  {
    assert forall i :: 0 <= i < |a| ==> a[i] == (a + b)[i];
    assert forall i :: 0 <= i < |b| ==> b[i] == (a + b)[|a| + i];
  }

  /** Every piece that is not blank is kept, stripped. */
  lemma StrippedPieceIsKept(pieces: seq<string>, j: nat)
    requires CommaFree(pieces) && j < |pieces| && Strip(pieces[j]) != ""
    ensures Strip(pieces[j]) in CleanPieces(pieces)
  {
    KeysArePieces(pieces);
    assert Strip(pieces[j]) in NonBlank(pieces);
  }

  /** Every key is some piece, stripped. */
  lemma KeptKeyIsStrippedPiece(pieces: seq<string>)
    requires CommaFree(pieces)
    ensures forall i :: 0 <= i < |CleanPieces(pieces)| ==>
      exists j :: 0 <= j < |pieces| && CleanPieces(pieces)[i] == Strip(pieces[j])
  {
    var keys := CleanPieces(pieces);
    KeysArePieces(pieces);
    forall i | 0 <= i < |keys| ensures exists j :: 0 <= j < |pieces| && keys[i] == Strip(pieces[j]) {
      assert keys[i] in NonBlank(pieces);
    }
  }

  lemma ConsClean(k: string, rest: seq<string>)
    requires CleanKey(k) && AllClean(rest)
    ensures AllClean([k] + rest)
  {
    forall i | 0 <= i < |[k] + rest| ensures CleanKey(([k] + rest)[i]) {
      if i > 0 { assert ([k] + rest)[i] == rest[i - 1]; }
    }
  }

  /** `[key.strip() for key in keys_env.split(",") if key.strip()]`. */
  function ParseKeys(env: string): (keys: seq<string>)
    ensures AllClean(keys)
    ensures |keys| == 0 <==> AllBlank(Split(env, ','))
  {
    var pieces := Split(env, ',');
    CleanPiecesBlank(pieces);
    CleanPieces(pieces)
  }

  /** The keys are exactly the stripped pieces between the commas that are
      not empty. */
  lemma ParseKeysPieces(env: string)
    ensures KeySet(ParseKeys(env)) == NonBlank(Split(env, ','))
  {
    KeysArePieces(Split(env, ','));
  }

  function KeySet(keys: seq<string>): set<string> {
    set k | k in keys
  }

  /** The stripped pieces that are not empty, as a set. */
  function NonBlank(pieces: seq<string>): set<string> {
    set j | 0 <= j < |pieces| && Strip(pieces[j]) != "" :: Strip(pieces[j])
  }

  /** The keys are exactly the stripped pieces that are not empty. */
  lemma {:induction false} KeysArePieces(pieces: seq<string>)
    requires CommaFree(pieces)
    ensures KeySet(CleanPieces(pieces)) == NonBlank(pieces)
    decreases |pieces|
  {
    if |pieces| > 0 {
      var head := if Strip(pieces[0]) == "" then [] else [Strip(pieces[0])];
      CleanPiecesHead(pieces);
      KeysArePieces(pieces[1..]);
      KeySetAppend(head, CleanPieces(pieces[1..]));
      NonBlankHead(pieces);
    }
  }

  lemma KeySetAppend(a: seq<string>, b: seq<string>)
    ensures KeySet(a + b) == KeySet(a) + KeySet(b)
  {
  }

  /** The first piece's contribution, then the rest's. */
  lemma NonBlankHead(pieces: seq<string>)
    requires |pieces| > 0
    ensures NonBlank(pieces) ==
      (if Strip(pieces[0]) == "" then {} else {Strip(pieces[0])}) + NonBlank(pieces[1..])
  {
    var rest := pieces[1..];
    forall k | k in NonBlank(pieces)
      ensures k in (if Strip(pieces[0]) == "" then {} else {Strip(pieces[0])}) + NonBlank(rest)
    {
      var j :| 0 <= j < |pieces| && Strip(pieces[j]) != "" && k == Strip(pieces[j]);
      if j > 0 {
        assert rest[j - 1] == pieces[j];
      }
    }
    forall k | k in NonBlank(rest) ensures k in NonBlank(pieces) {
      var j :| 0 <= j < |rest| && Strip(rest[j]) != "" && k == Strip(rest[j]);
      assert pieces[j + 1] == rest[j];
    }
  }

  /** Reading the variable in two parts at a comma gives the keys of the
      first part, then those of the second. */
  lemma ParseKeysAppend(a: string, b: string)
    ensures ParseKeys(a + [','] + b) == ParseKeys(a) + ParseKeys(b)
  {
    SplitAt(a, b, ',');
    CleanPiecesAppend(Split(a, ','), Split(b, ','));
  }

  /** A variable without a comma lists its stripped text, unless blank. */
  lemma OnePiece(env: string)
    requires ',' !in env
    ensures ParseKeys(env) == if Strip(env) == "" then [] else [Strip(env)]
  {
    assert Join([env], ',') == env;
    SplitJoin([env], ',');
    CleanPiecesHead([env]);
    assert [env][1..] == [];
  }

  /** An empty variable lists no key. */
  lemma EmptyHasNoKeys()
    ensures |ParseKeys("")| == 0
  {
    assert Split("", ',') == [""];
    assert Strip("") == "";
  }

  /** Clean keys written comma-separated are read back as they were. */
  lemma {:induction false} ParseJoin(keys: seq<string>)
    requires |keys| >= 1 && AllClean(keys)
    ensures ParseKeys(Join(keys, ',')) == keys
  {
    SplitJoin(keys, ',');
    CleanPiecesOfClean(keys);
  }

  lemma {:induction false} CleanPiecesOfClean(keys: seq<string>)
    requires AllClean(keys)
    ensures CommaFree(keys) && CleanPieces(keys) == keys
  {
    if |keys| > 0 {
      AllCleanTail(keys);
      CleanPiecesOfClean(keys[1..]);
      CleanPiecesCons(keys);
      assert [keys[0]] + keys[1..] == keys;
    }
  }

  lemma AllCleanTail(keys: seq<string>)
    requires |keys| > 0 && AllClean(keys)
    ensures CleanKey(keys[0]) && AllClean(keys[1..])
  {
    assert forall i :: 0 <= i < |keys[1..]| ==> keys[1..][i] == keys[i + 1];
  }

  /** A clean key in front is kept as it is. */
  lemma CleanPiecesCons(keys: seq<string>)
    requires |keys| > 0 && CleanKey(keys[0]) && CommaFree(keys[1..])
    ensures CommaFree(keys)
    ensures CleanPieces(keys) == [keys[0]] + CleanPieces(keys[1..])
  {
    assert forall i :: 0 <= i < |keys| - 1 ==> keys[1..][i] == keys[i + 1];
    StripTrimmed(keys[0]);
  }

  /** The manager: the keys and the position of the next one. */
  datatype KeyManager = KeyManager(keys: seq<string>, next: nat)

  predicate Valid(m: KeyManager) {
    |m.keys| > 0 && m.next < |m.keys|
  }

  /** `APIKeyManager()`: raises when the variable is unset or lists no
      usable key; otherwise starts at the first key. */
  function New(env: Option<string>): (r: Result<KeyManager, string>)
    ensures r.Ok? ==> Valid(r.value) && r.value.next == 0
    ensures r.Ok? ==> r.value.keys == ParseKeys(EnvText(env))
    ensures env.None? ==> r.Err?
    ensures r.Err? <==> |ParseKeys(EnvText(env))| == 0
  {
    if env.None? then
      EmptyHasNoKeys();
      Err("No API keys found in environment!")
    else
      var keys := ParseKeys(env.value);
      if |keys| == 0 then Err("No API keys found in environment!")
      else Ok(KeyManager(keys, 0))
  }

  /** `os.getenv("GOOGLE_API_KEYS", "")`. */
  function EnvText(env: Option<string>): string {
    if env.Some? then env.value else ""
  }

  /** `k` reduced below `c` by repeated subtraction: the position `k` steps
      into a cycle of length `c`. */
  function Wrap(k: nat, c: nat): (r: nat)
    requires c > 0
    ensures r < c
    decreases k
  {
    if k < c then k else Wrap(k - c, c)
  }

  /** `Wrap` is the remainder of division. */
  lemma {:induction false} WrapIsMod(k: nat, c: nat)
    requires c > 0
    ensures Wrap(k, c) == k % c
    decreases k
  {
    if k < c {
      ModUnique(k, c, 0, k);
    } else {
      WrapIsMod(k - c, c);
      var q, r := (k - c) / c, (k - c) % c;
      assert k - c == q * c + r;
      assert k == (q + 1) * c + r;
      ModUnique(k, c, q + 1, r);
    }
  }

  /** The remainder is the unique `r` with `k == q * c + r`, `0 <= r < c`. */
  lemma ModUnique(k: int, c: int, q: int, r: int)
    requires c > 0 && 0 <= r < c && k == q * c + r
    ensures k % c == r
  {
    var q', r' := k / c, k % c;
    assert k == q' * c + r';
    assert (q - q') * c == r' - r;
    if q > q' {
      MulAtLeast(q - q', c);
    } else if q < q' {
      MulAtLeast(q' - q, c);
    }
  }

  lemma {:induction false} MulAtLeast(a: int, c: int)
    requires a >= 1 && c > 0
    ensures a * c >= c
    decreases a
  {
    if a > 1 {
      MulAtLeast(a - 1, c);
      assert a * c == (a - 1) * c + c;
    }
  }

  /** `get_key`: the next key of the cycle; after the last key the cycle
      starts again at the first. */
  function GetKey(m: KeyManager): (r: (string, KeyManager))
    requires Valid(m)
    ensures Valid(r.1) && r.1.keys == m.keys
    ensures r.0 in m.keys
    ensures r.1.next == Wrap(m.next + 1, |m.keys|)
  {
    var next := if m.next + 1 == |m.keys| then 0 else m.next + 1;
    (m.keys[m.next], m.(next := next))
  }

  /** The keys returned by `n` calls of `get_key`, and the manager after. */
  function Calls(m: KeyManager, n: nat): (r: (seq<string>, KeyManager))
    requires Valid(m)
    ensures |r.0| == n && Valid(r.1) && r.1.keys == m.keys
    decreases n
  {
    if n == 0 then ([], m)
    else
      var (k, m') := GetKey(m);
      var (ks, m'') := Calls(m', n - 1);
      ([k] + ks, m'')
  }

  /** Stepping once and then `i - 1` more lands where `i` steps do. */
  lemma WrapShift(p: nat, i: nat, c: nat)
    requires c > 0 && p < c && i >= 1
    ensures Wrap(Wrap(p + 1, c) + (i - 1), c) == Wrap(p + i, c)
  {
    if p + 1 == c {
      assert Wrap(p + i, c) == Wrap(i - 1, c);
    }
  }

  /** The i-th call returns the key `i` places after the manager's
      position, wrapping around. */
  lemma {:induction false} CallsRoundRobin(m: KeyManager, n: nat)
    requires Valid(m)
    ensures forall i :: 0 <= i < n ==> Calls(m, n).0[i] == m.keys[Wrap(m.next + i, |m.keys|)]
    ensures Calls(m, n).1.next == Wrap(m.next + n, |m.keys|)
    decreases n
  {
    if n > 0 {
      var (k, m') := GetKey(m);
      CallsRoundRobin(m', n - 1);
      var c := |m.keys|;
      var ks, tail := Calls(m, n).0, Calls(m', n - 1).0;
      assert ks == [k] + tail;
      forall i | 1 <= i < n ensures ks[i] == m.keys[Wrap(m.next + i, c)] {
        assert ks[i] == tail[i - 1];
        WrapShift(m.next, i, c);
      }
      WrapShift(m.next, n, c);
    }
  }

  /** A manager at its first key returns `keys[i mod n]` on its i-th call,
      as a new one does. */
  lemma FromFirstKeyCycles(m: KeyManager, n: nat)
    requires Valid(m) && m.next == 0
    ensures forall i :: 0 <= i < n ==> Calls(m, n).0[i] == m.keys[i % |m.keys|]
  {
    CallsRoundRobin(m, n);
    forall i | 0 <= i < n ensures Calls(m, n).0[i] == m.keys[i % |m.keys|] {
      WrapIsMod(i, |m.keys|);
    }
  }

  /** One turn of the cycle, `|keys|` consecutive calls from any position,
      is a rotation of the list and returns to the starting position. */
  lemma OneTurnIsRotation(m: KeyManager)
    requires Valid(m)
    ensures Calls(m, |m.keys|).0 == m.keys[m.next..] + m.keys[..m.next]
    ensures Calls(m, |m.keys|).1 == m
  {
    var c := |m.keys|;
    CallsRoundRobin(m, c);
    forall i | 0 <= i < c
      ensures Calls(m, c).0[i] == (m.keys[m.next..] + m.keys[..m.next])[i]
    {
      RotationAt(m.keys, m.next, i);
    }
    assert Wrap(m.next + c, c) == m.next;
  }

  /** The i-th element of the rotation starting at `p`. */
  lemma RotationAt(keys: seq<string>, p: nat, i: nat)
    requires p < |keys| && i < |keys|
    ensures (keys[p..] + keys[..p])[i] == keys[Wrap(p + i, |keys|)]
  {
    var c := |keys|;
    if p + i >= c {
      assert Wrap(p + i, c) == Wrap(p + i - c, c);
    }
  }

  /** Any `|keys|` consecutive calls return each key exactly as often as it
      is listed. */
  lemma OneTurnReturnsEachKey(m: KeyManager)
    requires Valid(m)
    ensures multiset(Calls(m, |m.keys|).0) == multiset(m.keys)
  {
    OneTurnIsRotation(m);
    RotationKeepsKeys(m.keys, m.next);
  }

  lemma RotationKeepsKeys(keys: seq<string>, p: nat)
    requires p <= |keys|
    ensures multiset(keys[p..] + keys[..p]) == multiset(keys)
  {
    assert keys == keys[..p] + keys[p..];
  }
}
