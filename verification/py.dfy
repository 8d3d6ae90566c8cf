/**
 * The slice of Python's string and dictionary semantics that the reply service
 * relies on: `str.isspace`, `strip`, argument-less `split`, `lower`, `str()` of
 * the values found in a request's `product_info`, their truthiness and `dict.get`.
 */
module Py {
  import opened Text

  /** The characters for which Python's `str.isspace` holds. */
  predicate IsSpace(c: char) {
    var n := c as int;
    || (0x09 <= n <= 0x0D) || (0x1C <= n <= 0x20) || n == 0x85 || n == 0xA0 || n == 0x1680
    || (0x2000 <= n <= 0x200A) || n == 0x2028 || n == 0x2029 || n == 0x202F || n == 0x205F
    || n == 0x3000
  }

  /** Python `s.strip()`. */
  function Strip(s: string): string {
    Trim(s, IsSpace)
  }

  /** Python `s.lower()` on the ASCII letters. */
  function Lower(s: string): string {
    AsciiLower(s)
  }

  /** Lower-casing moves no whitespace, so the stripped length is unchanged. */
  lemma StripLowerLength(s: string)
    ensures |Strip(Lower(s))| == |Strip(s)|
  {
    var l := Lower(s);
    forall i | 0 <= i < |s| ensures IsSpace(l[i]) == IsSpace(s[i]) {
      assert l[i] == AsciiLowerChar(s[i]);
    }
    TrimSameShape(l, s, IsSpace);
  }

  /** The longest prefix of `s` that holds no whitespace; `s` must start with a non-space. */
  function TakeWord(s: string): (r: string)
    requires |s| > 0 && !IsSpace(s[0])
    ensures 1 <= |r| <= |s| && StartsWith(s, r)
    ensures forall i :: 0 <= i < |r| ==> !IsSpace(r[i])
    ensures |r| == |s| || IsSpace(s[|r|])
    decreases |s|
  {
    if |s| == 1 || IsSpace(s[1]) then s[..1]
    else [s[0]] + TakeWord(s[1..])
  }

  /** A word: a non-empty run of non-whitespace characters. */
  predicate IsWord(w: string) {
    |w| > 0 && forall i :: 0 <= i < |w| ==> !IsSpace(w[i])
  }

  /** Python `s.split()`: the maximal runs of non-whitespace characters, in order. */
  function Words(s: string): (r: seq<string>)
    ensures forall k :: 0 <= k < |r| ==> IsWord(r[k])
    decreases |s|
  {
    if |s| == 0 then []
    else if IsSpace(s[0]) then Words(s[1..])
    else
      var w := TakeWord(s);
      [w] + Words(s[|w|..])
  }

  /** A string with no whitespace at all is one word, or none when empty. */
  lemma {:induction false} WordsOfWord(s: string)
    requires forall i :: 0 <= i < |s| ==> !IsSpace(s[i])
    ensures Words(s) == if s == "" then [] else [s]
  {
    if s != "" {
      var w := TakeWord(s);
      assert |w| == |s|;
      assert w == s;
    }
  }

  /** The values a JSON request body places in `product_info` and that the service reads. */
  datatype PyValue = PyNone | PyInt(i: int) | PyStr(s: string)

  /** Python truthiness: `None`, `0` and `""` are false. */
  predicate Truthy(v: PyValue) {
    match v
    case PyNone => false
    case PyInt(i) => i != 0
    case PyStr(s) => s != ""
  }

  /** Python `str(v)`, as an f-string renders it. */
  function Str(v: PyValue): string {
    match v
    case PyNone => "None"
    case PyInt(i) => IntToString(i)
    case PyStr(s) => s
  }

  /** The exception a type-confused `product_info` value makes Python raise. */
  datatype Raised = TypeError

  /** A request's `product_info` dictionary. */
  type Dict = map<string, PyValue>

  /** Python `d.get(k)`: `None` for a missing key. */
  function Get(d: Dict, k: string): PyValue {
    if k in d then d[k] else PyNone
  }
}
