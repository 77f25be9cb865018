/** Values shared by every part of the launcher model: Java's null as Option,
    a thrown exception as Outcome, and the exceptions the launcher can raise. */
module Common {

  datatype Option<+T> = None | Some(value: T)

  /** The kinds of exception the launcher raises or lets through. */
  datatype Error =
    | MissingValue(param: string)   // an option without a non-blank value
    | MissingRequired               // namespace blank or absent after parsing
    | NullPointer(what: string)     // a null library path, loader or executor
    | ClassNotFound(name: string)   // the runtime entry class is not loadable
    | InvocationFailed(methodName: string) // a reflected runtime method threw

  /** Result of a Java method returning void: normal return or an exception. */
  datatype Outcome = Pass | Fail(error: Error)

  /** Result of a Java method returning a value or throwing. */
  datatype Result<+T> = Ok(value: T) | Err(error: Error)
}

/** java.lang.String.trim and the launcher's isBlank. */
module JavaString {
  import opened Common

  /** String.trim treats every character up to U+0020 as white space. */
  predicate IsSpace(c: char) {
    c <= ' '
  }

  function TrimStart(s: string): string {
    if s != [] && IsSpace(s[0]) then TrimStart(s[1..]) else s
  }

  function TrimEnd(s: string): string {
    if s != [] && IsSpace(s[|s| - 1]) then TrimEnd(s[..|s| - 1]) else s
  }

  /** TrimStart drops exactly the leading white space. */
  lemma {:induction false} TrimStartSpec(s: string)
    ensures |TrimStart(s)| <= |s| && TrimStart(s) == s[|s| - |TrimStart(s)|..]
    ensures forall k :: 0 <= k < |s| - |TrimStart(s)| ==> IsSpace(s[k])
    ensures TrimStart(s) != [] ==> !IsSpace(TrimStart(s)[0])
    decreases |s|
  {
    if s != [] && IsSpace(s[0]) {
      TrimStartSpec(s[1..]);
    }
  }

  /** TrimEnd drops exactly the trailing white space. */
  lemma {:induction false} TrimEndSpec(s: string)
    ensures |TrimEnd(s)| <= |s| && TrimEnd(s) == s[..|TrimEnd(s)|]
    ensures forall k :: |TrimEnd(s)| <= k < |s| ==> IsSpace(s[k])
    ensures TrimEnd(s) != [] ==> !IsSpace(TrimEnd(s)[|TrimEnd(s)| - 1])
    decreases |s|
  {
    if s != [] && IsSpace(s[|s| - 1]) {
      TrimEndSpec(s[..|s| - 1]);
    }
  }

  /** String.trim: drop leading and trailing white space. */
  function Trim(s: string): string {
    TrimEnd(TrimStart(s))
  }

  /** The trimmed string is a slice of s that neither starts nor ends with
      white space, and everything cut off on either side is white space. */
  lemma TrimSlice(s: string) returns (a: nat, b: nat)
    ensures a <= b <= |s| && Trim(s) == s[a..b]
    ensures forall k :: 0 <= k < a ==> IsSpace(s[k])
    ensures forall k :: b <= k < |s| ==> IsSpace(s[k])
    ensures Trim(s) != [] ==> !IsSpace(Trim(s)[0]) && !IsSpace(Trim(s)[|Trim(s)| - 1])
  {
    var t := TrimStart(s);
    var r := TrimEnd(t);
    TrimStartSpec(s);
    TrimEndSpec(t);
    a := |s| - |t|;
    b := a + |r|;
    assert forall k :: b <= k < |s| ==> s[k] == t[k - a];
  }

  /** isBlank: null, or nothing but white space. */
  predicate IsBlank(str: Option<string>) {
    str.None? || Trim(str.value) == []
  }

  /** A string is blank exactly when every character of it is white space. */
  lemma BlankIffAllSpace(s: string)
    ensures IsBlank(Some(s)) <==> forall k :: 0 <= k < |s| ==> IsSpace(s[k])
  {
    var a, b := TrimSlice(s);
    if Trim(s) != [] {
      assert Trim(s)[0] == s[a];
    }
  }

  /** Trimming twice is trimming once. */
  lemma TrimIdempotent(s: string)
    ensures Trim(Trim(s)) == Trim(s)
  {
    var t := Trim(s);
    var _, _ := TrimSlice(s);
    if t != [] {
      assert TrimStart(t) == t;
      assert TrimEnd(t) == t;
    }
  }
}
