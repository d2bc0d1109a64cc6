// Values that cross the process boundary: parsed JSON, spawn results and the
// outcome of a call that may throw.

module Text {
  import opened Options

  /** The characters String.prototype.trim removes. */
  predicate IsSpace(c: char) {
    || '\t' <= c <= '\r' || c == ' ' || c == '\U{A0}' || c == '\U{1680}'
    || '\U{2000}' <= c <= '\U{200A}' || c == '\U{2028}' || c == '\U{2029}'
    || c == '\U{202F}' || c == '\U{205F}' || c == '\U{3000}' || c == '\U{FEFF}'
  }

  /** White space and line terminators of the ECMAScript language (section 12 of ECMA-262), by code point. */
  lemma SpacesAre(c: char)
    ensures IsSpace(c) <==>
      || c as int in {9, 10, 11, 12, 13, 32, 0xA0, 0x1680, 0x2028, 0x2029, 0x202F, 0x205F, 0x3000, 0xFEFF}
      || 0x2000 <= c as int <= 0x200A
  {}

  predicate Trimmed(s: string) {
    s != [] ==> !IsSpace(s[0]) && !IsSpace(s[|s| - 1])
  }

  /** The longest infix of s that neither starts nor ends with white space. */
  function Trim(s: string): (t: string)
    ensures Trimmed(t)
    ensures Trimmed(s) ==> t == s
    decreases |s|
  {
    if s == [] then s
    else if IsSpace(s[0]) then Trim(s[1..])
    else if IsSpace(s[|s| - 1]) then Trim(s[..|s| - 1])
    else s
  }

  predicate AllSpace(s: string) { forall c :: c in s ==> IsSpace(c) }

  /** Trimming takes white space off both ends and nothing else. */
  lemma {:induction false} TrimMeans(s: string) returns (i: nat, j: nat)
    ensures i <= j <= |s| && Trim(s) == s[i..j] && AllSpace(s[..i]) && AllSpace(s[j..])
    decreases |s|
  {
    i, j := 0, |s|;
    if s != [] && IsSpace(s[0]) {
      i, j := TrimMeans(s[1..]);
      SliceShifts(s, i, j);
      i, j := i + 1, j + 1;
    } else if s != [] && IsSpace(s[|s| - 1]) {
      i, j := TrimMeans(s[..|s| - 1]);
      SliceEnds(s, i, j);
    }
  }

  lemma SliceShifts(s: string, i: nat, j: nat)
    requires i <= j < |s| && IsSpace(s[0])
    ensures s[1..][i..j] == s[i + 1..j + 1] && s[1..][j..] == s[j + 1..]
    ensures AllSpace(s[1..][..i]) ==> AllSpace(s[..i + 1])
  {
    hide IsSpace;
    assert s[..i + 1] == [s[0]] + s[1..][..i];
  }

  lemma SliceEnds(s: string, i: nat, j: nat)
    requires i <= j < |s| && IsSpace(s[|s| - 1])
    ensures s[..|s| - 1][i..j] == s[i..j] && s[..|s| - 1][..i] == s[..i]
    ensures AllSpace(s[..|s| - 1][j..]) ==> AllSpace(s[j..])
  {
    hide IsSpace;
    assert s[j..] == s[..|s| - 1][j..] + [s[|s| - 1]];
  }

  /** A required text is the trimmed one, if that is not empty and no NUL is in it. */
  lemma RequireTextMeans(s: string, t: string)
    ensures RequireText(s) == Some(t) <==> t == Trim(s) && t != "" && '\0' !in s
  {
    var i, j := TrimMeans(s);
    assert s == s[..i] + s[i..j] + s[j..];
    hide Trim;
  }

  /** An identity is a required text that no path or prototype can be confused with. */
  lemma RequireIdentityMeans(s: string, t: string)
    ensures RequireIdentity(s) == Some(t) <==>
      && RequireText(s) == Some(t) && '/' !in t && '\\' !in t
      && t != "__proto__" && t != "prototype" && t != "constructor" && t != "." && t != ".."
  {}

  /** Trimmed text, or None for an error: it is empty or holds a NUL. */
  function RequireText(s: string): (t: Option<string>)
    ensures t.Some? ==> Trimmed(t.value) && t.value != ""
  {
    if '\0' in Trim(s) || Trim(s) == "" then None else Some(Trim(s))
  }

  function RequireIdentity(s: string): (t: Option<string>)
    ensures t.Some? ==> RequireText(s) == t
  {
    var t := RequireText(s);
    if t.Some? && t.value !in {"__proto__", "prototype", "constructor", ".", ".."} && '/' !in t.value && '\\' !in t.value
    then t else None
  }
}

module Options {
  datatype Option<+T> = None | Some(value: T)
}

module JsonValues {
  import opened Options

  /** Frac stands for every number that is not an integer. */
  datatype Json =
    | Null
    | Bool(b: bool)
    | Int(n: int)
    | Frac(r: real)
    | Str(s: string)
    | Arr(items: seq<Json>)
    | Obj(fields: map<string, Json>)

  type Record = map<string, Json>

  /** A dynamically typed value: None is undefined. */
  type Value = Option<Json>

  /** A call either returns or throws; a thrown error may carry a string code. */
  datatype Attempt<+T> = Returned(value: T) | Threw(code: Option<string>)

  const MAX_SAFE_INTEGER := 0x1F_FFFF_FFFF_FFFF

  function Field(o: Record, key: string): (v: Value)
    ensures v.Some? <==> key in o
  {
    if key in o then Some(o[key]) else None
  }

  predicate IsPositivePid(v: Value) {
    v.Some? && v.value.Int? && 0 < v.value.n <= MAX_SAFE_INTEGER
  }

  predicate IsText(v: Value) {
    v.Some? && v.value.Str?
  }

  /** What spawnSync reports; stdout and stderr are None when they do not parse. */
  datatype Spawn = Spawn(
    error: bool,
    signalled: bool,
    status: Option<int>,
    stdout: Value,
    stderr: Value)

  /** The data of a trustworthy `{ ok: true, data: {...} }` envelope. */
  function SuccessEnvelope(r: Spawn): Option<Record> {
    if r.error || r.signalled || r.status.None? || r.stdout.None? then None
    else match r.stdout.value
      case Obj(envelope) =>
        (match (Field(envelope, "ok"), Field(envelope, "data"))
         case (Some(Bool(true)), Some(Obj(data))) => Some(data)
         case _ => None)
      case _ => None
  }
}
