/**
 * Shared vocabulary of the model: Python's exceptions as values, the outcome of
 * a Python call (it returns or it raises), and the few string functions of
 * Python's standard library the service relies on (`str(int)`, `str.join`,
 * `str.lower`, `os.path.splitext`, `os.path.join`).
 */
module Common {

  datatype Option<T> = None | Some(value: T)

  /** The three distinct TaskCancelledException classes, by the module that defines them. */
  datatype CancelOrigin = LlmCancel | OllamaCancel | PdfUtilsCancel

  /** An exception object, as far as the service looks at it. */
  datatype Exc =
    | ValueError(msg: string)
    | FileNotFound(msg: string)
    | IndexError(msg: string)
    | TaskCancelled(origin: CancelOrigin, msg: string)
    | AttributeError(msg: string)
      /** celery.exceptions.Retry, raised by `Task.retry` once it has re-sent the task */
    | Retry(countdown: nat, cause: Exc)
      /** any other exception raised by a collaborator (HTTP client, rasterizer, storage) */
    | Failure(className: string, msg: string)

  /** What a Python call does: it returns a value or raises an exception. */
  datatype Outcome<T> = Returned(value: T) | Raised(exc: Exc)

  function ClassName(e: Exc): string
  {
    match e
    case ValueError(_) => "ValueError"
    case FileNotFound(_) => "FileNotFoundError"
    case IndexError(_) => "IndexError"
    case TaskCancelled(_, _) => "TaskCancelledException"
    case AttributeError(_) => "AttributeError"
    case Retry(_, _) => "Retry"
    case Failure(c, _) => c
  }

  /** `str(e)`; celery renders a Retry as "Retry in {countdown}s: {exc!r}". */
  function Str(e: Exc): string
    decreases e, 1
  {
    match e
    case Retry(c, cause) => "Retry in " + NatToString(c) + "s: " + Repr(cause)
    case ValueError(m) => m
    case FileNotFound(m) => m
    case IndexError(m) => m
    case TaskCancelled(_, m) => m
    case AttributeError(m) => m
    case Failure(_, m) => m
  }

  /** `repr(e)` for an exception built from one message argument. */
  function Repr(e: Exc): string
    decreases e, 2
  {
    ClassName(e) + "('" + Str(e) + "')"
  }

  // ---------------------------------------------------------------- str(int)

  function DigitChar(d: nat): (c: char)
    requires d < 10
    ensures '0' <= c <= '9'
  {
    "0123456789"[d]
  }

  function DigitValue(c: char): nat
  {
    if '0' <= c <= '9' then (c - '0') as nat else 0
  }

  predicate IsDigits(s: string)
  {
    forall i :: 0 <= i < |s| ==> '0' <= s[i] <= '9'
  }

  /** Python's `str(n)` for a non-negative integer: decimal, no leading zeros. */
  function NatToString(n: nat): (s: string)
    ensures |s| > 0 && IsDigits(s)
    ensures n >= 10 <==> |s| >= 2
    decreases n
  {
    if n < 10 then [DigitChar(n)] else NatToString(n / 10) + [DigitChar(n % 10)]
  }

  /** Python's `str(i)` for any integer. */
  function IntToString(i: int): string
  {
    if i < 0 then "-" + NatToString(-i) else NatToString(i)
  }

  /** Reads a decimal numeral back: the inverse of NatToString. */
  function ParseDigits(s: string): nat
  {
    if s == [] then 0 else 10 * ParseDigits(s[..|s| - 1]) + DigitValue(s[|s| - 1])
  }

  lemma {:induction false} ParseNatToString(n: nat)
    ensures ParseDigits(NatToString(n)) == n
    decreases n
  {
    if n >= 10 {
      var s := NatToString(n);
      assert s[..|s| - 1] == NatToString(n / 10);
      ParseNatToString(n / 10);
    }
  }

  /** Distinct numbers print differently; page markers of different pages differ. */
  lemma NatToStringInjective(m: nat, n: nat)
    requires NatToString(m) == NatToString(n)
    ensures m == n
  {
    ParseNatToString(m);
    ParseNatToString(n);
  }

  // ---------------------------------------------------------------- str.join

  /** `sep.join(parts)`. */
  function Join(sep: string, parts: seq<string>): string
  {
    if |parts| == 0 then ""
    else if |parts| == 1 then parts[0]
    else Join(sep, parts[..|parts| - 1]) + sep + parts[|parts| - 1]
  }

  function JoinNats(sep: string, ns: seq<nat>): string
  {
    Join(sep, seq(|ns|, i requires 0 <= i < |ns| => NatToString(ns[i])))
  }

  // ---------------------------------------------------------------- str.lower

  function LowerChar(c: char): char
  {
    if 'A' <= c <= 'Z' then (c as int + 32) as char else c
  }

  /** `s.lower()` on ASCII letters. */
  function Lower(s: string): (r: string)
    ensures |r| == |s|
  {
    seq(|s|, i requires 0 <= i < |s| => LowerChar(s[i]))
  }

  // ---------------------------------------------------------------- os.path

  /** `s.rfind(c)`: the last index of c in s, or -1. */
  function RFind(s: string, c: char): (i: int)
    ensures -1 <= i < |s|
    ensures i >= 0 ==> s[i] == c
    ensures forall j :: i < j < |s| ==> s[j] != c
  {
    if |s| == 0 then -1
    else if s[|s| - 1] == c then |s| - 1
    else RFind(s[..|s| - 1], c)
  }

  predicate AllDots(s: string)
  {
    forall i :: 0 <= i < |s| ==> s[i] == '.'
  }

  /**
   * `os.path.splitext(p)` on POSIX: the extension starts at the last dot of the
   * last path component, unless everything before that dot in the component is
   * dots (so ".bashrc" and "..pdf" have no extension).
   */
  function SplitExt(p: string): (string, string)
  {
    var sepIndex := RFind(p, '/');
    var dotIndex := RFind(p, '.');
    if dotIndex > sepIndex && !AllDots(p[sepIndex + 1..dotIndex])
    then (p[..dotIndex], p[dotIndex..])
    else (p, "")
  }

  /** The extension is empty or a dot followed by neither dot nor slash; root + ext == p. */
  lemma SplitExtParts(p: string)
    ensures SplitExt(p).0 + SplitExt(p).1 == p
    ensures SplitExt(p).1 == "" || (SplitExt(p).1[0] == '.' && '/' !in SplitExt(p).1)
    ensures forall i :: 0 < i < |SplitExt(p).1| ==> SplitExt(p).1[i] !in "./"
  {
  }

  /** A plain file name "base.ext" splits at its one dot. */
  lemma SplitExtOfName(base: string, ext: string)
    requires base != "" && '.' !in base && '/' !in base
    requires |ext| > 0 && ext[0] == '.' && '.' !in ext[1..] && '/' !in ext
    ensures SplitExt(base + ext) == (base, ext)
  {
    var p := base + ext;
    assert p[|base|] == '.';
    assert forall j :: 0 <= j < |p| && j != |base| ==> p[j] != '.' && p[j] != '/' by {
      forall j | 0 <= j < |p| && j != |base|
        ensures p[j] != '.' && p[j] != '/'
      {
        if j < |base| {
          assert p[j] == base[j];
        } else {
          assert p[j] == ext[1..][j - |base| - 1];
        }
      }
    }
    assert RFind(p, '/') == -1;
    assert RFind(p, '.') == |base|;
    assert p[0..|base|] == base && base[0] != '.';
    assert p[..|base|] == base && p[|base|..] == ext;
  }

  /** The lower-cased extension that the services dispatch on. */
  function Ext(p: string): string
  {
    Lower(SplitExt(p).1)
  }

  /** The extension of a plain file name "base.ext", lower-cased. */
  lemma ExtOfName(base: string, ext: string)
    requires base != "" && '.' !in base && '/' !in base
    requires |ext| > 0 && ext[0] == '.' && '.' !in ext[1..] && '/' !in ext
    ensures Ext(base + ext) == Lower(ext)
  {
    SplitExtOfName(base, ext);
  }

  /** `os.path.join(a, b)` on POSIX: an absolute b replaces a. */
  function PathJoin(a: string, b: string): (r: string)
  {
    if |b| > 0 && b[0] == '/' then b
    else if a == "" || a[|a| - 1] == '/' then a + b
    else a + "/" + b
  }
}
