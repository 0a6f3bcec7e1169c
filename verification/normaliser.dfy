/** Canonicalisation of borderline content before a record is checked:
    short SOA content is padded with zero fields, bare TXT content is quoted. */
module Normaliser {
  import opened Names
  import opened Records
  import opened Findings

  /** The delimiters whitespace tokenisation splits on. */
  predicate IsBlank(c: char) {
    c == ' ' || c == '\t' || c == '\n'
  }

  /** Length of the leading run of non-blank characters. */
  function TokenEnd(s: string): (k: nat)
    ensures k <= |s|
    ensures forall i :: 0 <= i < k ==> !IsBlank(s[i])
    ensures k < |s| ==> IsBlank(s[k])
  {
    if s == [] || IsBlank(s[0]) then 0 else 1 + TokenEnd(s[1..])
  }

  /** The maximal blank-free runs of `s`, left to right. */
  function Fields(s: string): seq<string>
    decreases |s|
  {
    if s == [] then []
    else if IsBlank(s[0]) then Fields(s[1..])
    else
      var k := TokenEnd(s);
      [s[..k]] + Fields(s[k..])
  }

  /** `n` copies of the field " 0". */
  function Zeros(n: nat): string {
    if n == 0 then "" else Zeros(n - 1) + " 0"
  }

  function ZeroFields(n: nat): seq<string> {
    if n == 0 then [] else ZeroFields(n - 1) + ["0"]
  }

  /** SOA content with fewer than seven fields gets " 0" appended per
      missing field. */
  function PadSoa(content: string): string {
    var n := |Fields(content)|;
    if n < 7 then content + Zeros(7 - n) else content
  }

  /** Non-empty TXT content that does not start with a double quote is
      wrapped in double quotes. */
  function QuoteTxt(content: string): string {
    if content != [] && content[0] != '"' then "\"" + content + "\"" else content
  }

  /** The working copy of a record the rest of the check sees. */
  function Normalise(r: Record): Record {
    if r.qtype == SOA then r.(content := PadSoa(r.content))
    else if r.qtype == TXT then r.(content := QuoteTxt(r.content))
    else r
  }

  /** The information and warning the normaliser issues for an SOA record,
      judged on its content as given. */
  function NormaliserFindings(r: Record): seq<Finding> {
    if r.qtype != SOA then []
    else
      var parts := Fields(r.content);
      When(|parts| < 7, OnRecord(Inform(SoaAutocomplete), r.qname, r.qtype))
      + When(|parts| >= 2 && '@' in parts[1], OnRecord(Warn(SoaAtSign), r.qname, r.qtype))
  }

  /** Appending a blank and a field ends whatever field was open and adds
      exactly that one field. */
  lemma {:induction false} FieldsAppendZero(s: string)
    ensures Fields(s + " 0") == Fields(s) + ["0"]
    decreases |s|
  {
    var t := s + " 0";
    if s == [] {
      assert t == " 0";
      assert Fields(t) == Fields(t[1..]);
      assert t[1..] == "0";
      assert TokenEnd("0") == 1;
      assert "0"[..1] == "0" && "0"[1..] == [];
      assert Fields("0") == ["0"] + Fields([]);
    } else if IsBlank(s[0]) {
      assert t[1..] == s[1..] + " 0";
      FieldsAppendZero(s[1..]);
    } else {
      var k := TokenEnd(s);
      assert TokenEnd(t) == k by {
        TokenEndAppend(s, " 0");
      }
      assert t[..k] == s[..k];
      assert t[k..] == s[k..] + " 0";
      FieldsAppendZero(s[k..]);
    }
  }

  /** The leading field of `s` is not extended by appending text that
      starts with a blank. */
  lemma {:induction false} TokenEndAppend(s: string, u: string)
    requires u != [] && IsBlank(u[0])
    ensures TokenEnd(s + u) == TokenEnd(s)
    decreases |s|
  {
    if s == [] {
      assert s + u == u;
    } else if !IsBlank(s[0]) {
      assert (s + u)[1..] == s[1..] + u;
      TokenEndAppend(s[1..], u);
    }
  }

  lemma {:induction false} FieldsZeros(s: string, n: nat)
    ensures Fields(s + Zeros(n)) == Fields(s) + ZeroFields(n)
    decreases n
  {
    if n == 0 {
      assert s + Zeros(0) == s;
    } else {
      FieldsZeros(s, n - 1);
      assert s + Zeros(n) == (s + Zeros(n - 1)) + " 0";
      FieldsAppendZero(s + Zeros(n - 1));
    }
  }

  lemma {:induction false} ZeroFieldsShape(n: nat)
    ensures |ZeroFields(n)| == n
    ensures forall i :: 0 <= i < n ==> ZeroFields(n)[i] == "0"
    decreases n
  {
    if n > 0 {
      ZeroFieldsShape(n - 1);
    }
  }

  /** Padding leaves SOA content with at least seven fields: the original
      ones followed by "0" fields, and nothing changes when seven or more
      were already there. */
  lemma PadSoaFields(content: string)
    ensures |Fields(PadSoa(content))| == if |Fields(content)| < 7 then 7 else |Fields(content)|
    ensures Fields(PadSoa(content))[..|Fields(content)|] == Fields(content)
    ensures forall i :: |Fields(content)| <= i < |Fields(PadSoa(content))| ==> Fields(PadSoa(content))[i] == "0"
    ensures |Fields(content)| >= 7 ==> PadSoa(content) == content
    ensures content <= PadSoa(content)
  {
    var n := |Fields(content)|;
    if n < 7 {
      FieldsZeros(content, 7 - n);
      ZeroFieldsShape(7 - n);
    }
  }

  /** Quoting leaves content that is empty or starts with a quote, and the
      original text sits unchanged between the quotes it adds. */
  lemma QuoteTxtShape(content: string)
    ensures QuoteTxt(content) == [] || QuoteTxt(content)[0] == '"'
    ensures content != [] && content[0] != '"' ==>
              |QuoteTxt(content)| == |content| + 2
              && QuoteTxt(content)[1..|content| + 1] == content
              && QuoteTxt(content)[|content| + 1] == '"'
    ensures content == [] || content[0] == '"' ==> QuoteTxt(content) == content
  {
  }

  /** Normalising twice is normalising once: the working copy is already in
      the form the normaliser produces. */
  lemma NormaliseIdempotent(r: Record)
    ensures Normalise(Normalise(r)) == Normalise(r)
  {
    if r.qtype == SOA {
      PadSoaFields(r.content);
      PadSoaFields(PadSoa(r.content));
    }
  }

  /** Only the content changes, and only for SOA and TXT records. */
  lemma NormaliseKeepsIdentity(r: Record)
    ensures Normalise(r).qname == r.qname && Normalise(r).qtype == r.qtype
    ensures Normalise(r).ttl == r.ttl && Normalise(r).auth == r.auth
    ensures r.qtype != SOA && r.qtype != TXT ==> Normalise(r) == r
  {
  }

  /** The normaliser never reports an error. */
  lemma NormaliserFindingsNoErrors(r: Record)
    ensures Errors(NormaliserFindings(r)) == 0
    ensures (r.qtype == SOA && |Fields(r.content)| >= 2 && '@' in Fields(r.content)[1])
              <==> CountKind(NormaliserFindings(r), Warn(SoaAtSign)) == 1
  {
    if r.qtype == SOA {
      var parts := Fields(r.content);
      var a := When(|parts| < 7, OnRecord(Inform(SoaAutocomplete), r.qname, r.qtype));
      var b := When(|parts| >= 2 && '@' in parts[1], OnRecord(Warn(SoaAtSign), r.qname, r.qtype));
      CountSeverityAppend(a, b, Error);
      CountKindAppend(a, b, Warn(SoaAtSign));
    }
  }
}
