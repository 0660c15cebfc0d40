/** `src/utils/aiCaptionGenerator.js`, `generateMemeCaptions`: ask a chat
    completion service for meme captions and read them off its reply, one
    per line, skipping blank and numbered lines, ten at most, never none.
    The HTTP exchange is a parameter: what it returned. */
module AiCaptions {
  import opened Optional
  import opened JsStrings
  import opened JsArrays

  const MaxCaptions: nat := 10
  const Fallback: string := "No captions generated"
  const MissingKeyMessage: string := "Groq API key not found. Please set VITE_GROQ_API_KEY in your environment variables."
  const DefaultErrorMessage: string := "Failed to generate captions"

  /** What the completion request gave: a failed response with the
      service's error message ("" when it has none), or a successful one
      with the first choice's message content, if any. */
  datatype Reply = ErrorReply(message: string) | Content(content: Option<string>)

  /** The captions, or the message of the error thrown. */
  datatype Captions = Generated(captions: seq<string>) | Error(message: string)

  /** `\d` of a regular expression without the `u` flag. */
  predicate IsDigit(c: char)
  {
    '0' <= c <= '9'
  }

  /** Number of digits at the start of `s`. */
  function DigitRun(s: string): (k: nat)
    ensures k <= |s|
    ensures forall i :: 0 <= i < k ==> IsDigit(s[i])
    ensures k < |s| ==> !IsDigit(s[k])
  {
    if s == [] || !IsDigit(s[0]) then 0 else 1 + DigitRun(s[1..])
  }

  /** `line.match(/^\d+[\.\)]/)`: the longest digit run at the start is
      followed by `.` or `)`. */
  predicate Numbered(line: string)
  {
    var k := DigitRun(line);
    1 <= k < |line| && (line[k] == '.' || line[k] == ')')
  }

  /** The regular expression matches at the start when some run of one or
      more digits is followed by `.` or `)`. */
  predicate NumberedAt(line: string, k: nat)
  {
    1 <= k < |line| && (forall i :: 0 <= i < k ==> IsDigit(line[i])) && (line[k] == '.' || line[k] == ')')
  }

  /** Testing only the longest digit run finds every match: `Numbered` is
      the regular expression's test. */
  lemma NumberedMatches(line: string)
    ensures Numbered(line) <==> exists k: nat | k <= |line| :: NumberedAt(line, k)
  {
    var run := DigitRun(line);
    if Numbered(line) {
      assert NumberedAt(line, run);
    }
    if exists k: nat | k <= |line| :: NumberedAt(line, k) {
      var k: nat :| k <= |line| && NumberedAt(line, k);
      assert !IsDigit(line[k]);
      assert run == k;
    }
  }

  /** The filter's test: a non-empty line that is not numbered. */
  predicate IsCaption(line: string)
  {
    |line| > 0 && !Numbered(line)
  }

  /** `content.split('\n').map(line => line.trim())`. */
  function Lines(content: string): (r: seq<string>)
    ensures |r| == |Split(content, '\n')|
    ensures forall i :: 0 <= i < |r| ==> r[i] == Trim(Split(content, '\n')[i])
  {
    var parts := Split(content, '\n');
    seq(|parts|, i requires 0 <= i < |parts| => Trim(parts[i]))
  }

  /** The parse of the reply's content. */
  function ParseCaptions(content: string): (r: seq<string>)
    ensures 1 <= |r| <= MaxCaptions
    ensures Filter(Lines(content), IsCaption) == [] ==> r == [Fallback]
    ensures Filter(Lines(content), IsCaption) != [] ==>
              |r| == (if |Filter(Lines(content), IsCaption)| < MaxCaptions then |Filter(Lines(content), IsCaption)| else MaxCaptions)
              && r == Filter(Lines(content), IsCaption)[..|r|]
  {
    var captions := Take(Filter(Lines(content), IsCaption), MaxCaptions);
    if |captions| > 0 then captions else [Fallback]
  }

  /** `generateMemeCaptions(userInput)`: `apiKey` is `VITE_GROQ_API_KEY`
      ("" when unset) and `reply` what the request gave. */
  function GenerateCaptions(apiKey: string, reply: Reply): (r: Captions)
    ensures apiKey == "" ==> r == Error(MissingKeyMessage)
    ensures r.Generated? ==> 1 <= |r.captions| <= MaxCaptions
  {
    if apiKey == "" then Error(MissingKeyMessage)
    else
      match reply
      case ErrorReply(m) => Error(if m == "" then DefaultErrorMessage else m)
      case Content(c) => Generated(ParseCaptions(if c.Some? then c.value else ""))
  }

  /** Without a key no request is made: the result does not depend on what
      the request would have given. */
  lemma NoKeyNoRequest(reply: Reply, other: Reply)
    ensures GenerateCaptions("", reply) == GenerateCaptions("", other)
  {
  }

  /** Every caption returned, unless it is the fallback, is a trimmed line of
      the content, non-empty, without surrounding white space and not
      numbered. */
  lemma CaptionsAreLines(content: string)
    ensures var r := ParseCaptions(content);
            r != [Fallback] ==>
              forall i :: 0 <= i < |r| ==> r[i] in Lines(content) && IsCaption(r[i])
                                           && !IsJsSpace(r[i][0]) && !IsJsSpace(r[i][|r[i]| - 1])
  {
    var kept := Filter(Lines(content), IsCaption);
    var r := ParseCaptions(content);
    if r != [Fallback] {
      forall i | 0 <= i < |r|
        ensures r[i] in Lines(content) && IsCaption(r[i]) && !IsJsSpace(r[i][0]) && !IsJsSpace(r[i][|r[i]| - 1])
      {
        assert r[i] == kept[i];
        var j :| 0 <= j < |Lines(content)| && Lines(content)[j] == r[i];
        assert r[i] == Trim(Split(content, '\n')[j]);
      }
    }
  }

  /** With at most ten caption lines, every one of them is returned. */
  lemma CaptionsComplete(content: string, j: nat)
    requires |Filter(Lines(content), IsCaption)| <= MaxCaptions
    requires j < |Lines(content)| && IsCaption(Lines(content)[j])
    ensures Lines(content)[j] in ParseCaptions(content)
  {
  }

  /** A string with no white space at either end trims to itself. */
  lemma TrimTrimmed(s: string)
    requires s == [] || (!IsJsSpace(s[0]) && !IsJsSpace(s[|s| - 1]))
    ensures Trim(s) == s
  {
    assert LeadingSpace(s) == 0;
    assert s[0..] == s;
  }

  /** Captions written one per line come back as they were: one to ten
      lines, each a caption with no line break and no white space at either
      end. */
  lemma ParseJoin(cs: seq<string>)
    requires 1 <= |cs| <= MaxCaptions
    requires forall i :: 0 <= i < |cs| ==> IsCaption(cs[i]) && '\n' !in cs[i]
                                           && !IsJsSpace(cs[i][0]) && !IsJsSpace(cs[i][|cs[i]| - 1])
    ensures ParseCaptions(Join(cs, '\n')) == cs
  {
    SplitJoin(cs, '\n');
    var lines := Lines(Join(cs, '\n'));
    forall i | 0 <= i < |cs| ensures lines[i] == cs[i] {
      TrimTrimmed(cs[i]);
    }
    assert lines == cs;
    FilterAll(cs, IsCaption);
  }
}
