/**
 * Promise_Error, the message-carrying exception of the promise runtime, and
 * the plain std::exception values it is built from and compared against.
 *
 * A C++ exception is seen here only through `what()`, a C string: the
 * characters up to (not including) the first NUL.  A Promise_Error keeps a
 * whole std::string, so a message with an embedded NUL is compared in full
 * by `==` but shown truncated by `what()`.
 */
module PromiseErrors {

  /** The text of a C string: no NUL before its terminator. */
  type CString = s: string | '\0' !in s

  /** Any std::exception, through the C string its what() points to. */
  datatype Exception = Exception(what: CString)

  /** A Promise_Error: its `_msg` std::string. */
  datatype PromiseError = PromiseError(msg: string)

  /** The `noerr` sentinel: std::logic_error("NO ERR"). */
  const NoErr: Exception := Exception("NO ERR")

  /** What a plain std::exception object reports (the libstdc++ text). */
  const StdExceptionWhat: string := "std::exception"

  /** The characters a C-string reader sees in `s`: those before the first NUL. */
  function CPrefix(s: string): (r: string)
    ensures |r| <= |s| && r == s[..|r|]
    ensures '\0' !in r
    ensures |r| < |s| ==> s[|r|] == '\0'
    ensures '\0' !in s ==> r == s
  {
    if s == [] then []
    else if s[0] == '\0' then []
    else
      var rest := CPrefix(s[1..]);
      assert s[..|rest| + 1] == [s[0]] + s[1..][..|rest|];
      [s[0]] + rest
  }

  /** Promise_Error(const std::string &msg). */
  function FromString(msg: string): (e: PromiseError)
    ensures e.msg == msg
  {
    PromiseError(msg)
  }

  /**
   * Promise_Error(const char *msg): the std::string is built from the
   * characters of `buf` up to its terminating NUL.
   */
  function FromCString(buf: string): (e: PromiseError)
    requires '\0' in buf
    ensures '\0' !in e.msg
    ensures |e.msg| < |buf| && buf[..|e.msg|] == e.msg && buf[|e.msg|] == '\0'
  {
    PromiseError(CPrefix(buf))
  }

  /** Promise_Error(const std::exception &e): the message is e.what(). */
  function FromException(x: Exception): (e: PromiseError)
    ensures e.msg == x.what
  {
    PromiseError(x.what)
  }

  /** Promise_Error(const Promise_Error &err). */
  function CopyOf(err: PromiseError): (e: PromiseError)
    ensures Eq(e, err)
  {
    PromiseError(err.msg)
  }

  /** what(): `_msg.c_str()`, read as a C string. */
  function What(e: PromiseError): (r: CString)
    ensures '\0' !in e.msg ==> r == e.msg
    ensures '\0' in e.msg ==> |r| < |e.msg|
  {
    CPrefix(e.msg)
  }

  /** A Promise_Error handed on as a `const std::exception&`. */
  function AsException(e: PromiseError): (x: Exception)
    ensures x.what == What(e)
  {
    Exception(What(e))
  }

  /** operator==: `_msg.compare(err._msg) == 0`. */
  predicate Eq(a: PromiseError, b: PromiseError)
  {
    a.msg == b.msg
  }

  /** operator!=: `_msg.compare(err._msg) != 0`, the negation of `==`. */
  predicate Neq(a: PromiseError, b: PromiseError)
    ensures Neq(a, b) <==> !Eq(a, b)
  {
    a.msg != b.msg
  }

  /**
   * The string and C-string constructors give back their message through
   * what(), and so does the std::exception constructor.
   */
  lemma WhatReturnsMessage(msg: string, buf: string, x: Exception)
    requires '\0' !in msg
    requires '\0' in buf
    ensures What(FromString(msg)) == msg
    ensures What(FromCString(buf)) == CPrefix(buf)
    ensures What(FromException(x)) == x.what
  {
  }

  /**
   * Handing a Promise_Error on as a std::exception and building a new one
   * from it gives an equal error exactly when the message has no NUL.
   */
  lemma {:induction false} ThroughExceptionKeepsEquality(e: PromiseError)
    ensures Eq(FromException(AsException(e)), e) <==> '\0' !in e.msg
  {
    if '\0' in e.msg {
      assert |What(e)| < |e.msg|;
    }
  }

  /**
   * A Promise_Error variable: operator= overwrites its `_msg` in place.
   */
  class ErrorVar {
    var value: PromiseError

    constructor (init: PromiseError)
      ensures value == init
    {
      value := init;
    }

    /** The variable's what(). */
    function Text(): (r: string)
      reads this
      ensures '\0' !in r
    {
      What(value)
    }

    /**
     * operator=(const std::exception &err) with another Promise_Error
     * variable as `err`: self-assignment changes nothing, otherwise the
     * message becomes err.what().  This operator runs when the source is seen
     * through a `const std::exception&`; `a = b` between two Promise_Error
     * lvalues picks the implicit copy assignment instead, which copies
     * `_msg` whole.  The two differ only for a message holding a NUL.
     */
    method Assign(src: ErrorVar)
      modifies this
      ensures src == this ==> value == old(value)
      ensures src != this ==> value == FromException(AsException(old(src.value)))
      ensures src != this ==> Text() == old(src.Text())
    {
      if src == this {
        return;
      }
      value := FromException(AsException(src.value));
    }

    /** operator=(const std::exception &err) with any other exception. */
    method AssignException(x: Exception)
      modifies this
      ensures value == FromException(x)
    {
      value := PromiseError(x.what);
    }
  }
}
