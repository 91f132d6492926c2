/** `generate_nginx_conf` of the scalable benchmark: the upstream server list for `n` worker
    nodes, substituted for every `{{servers}}` of the template. Reading the template and writing
    the configuration file are not modelled: the template text is a parameter and the
    configuration text is the result. */
module NginxConf {
  import opened Strings

  const ServerLine := "server benchmark:80;"
  const Placeholder := "{{servers}}"

  /** `[f"server benchmark:80;" for i in range(1, n+1)]` */
  function ServerLines(n: int): seq<string>
  {
    if n <= 0 then [] else seq(n, _ => ServerLine)
  }

  /** `"\n".join(...)` of the server lines. */
  function Servers(n: int): string
  {
    Join("\n", ServerLines(n))
  }

  /** `template.replace('{{servers}}', servers)` */
  function GenerateConfig(template: string, n: int): string
  {
    ReplaceAll(template, Placeholder, Servers(n))
  }

  /** With no worker nodes the server list is empty: `range(1, n+1)` yields nothing. */
  lemma ServersEmpty(n: int)
    requires n <= 0
    ensures Servers(n) == ""
  {
  }

  /** One node gives one line; each further node adds a newline and one more line. */
  lemma ServersGrow(n: int)
    requires n >= 1
    ensures Servers(1) == ServerLine
    ensures Servers(n + 1) == Servers(n) + "\n" + ServerLine
  {
    assert ServerLines(n + 1) == ServerLines(n) + [ServerLine];
    JoinSnoc("\n", ServerLines(n), ServerLine);
  }

  /** `n` lines of 20 characters and `n - 1` newlines between them. */
  lemma ServersLength(n: int)
    requires n >= 1
    ensures |Servers(n)| == 21 * n - 1
  {
    JoinUniformLength("\n", ServerLines(n), 20);
  }

  /** The list holds exactly `n - 1` newlines: the separators. */
  lemma ServersNewlines(n: int)
    requires n >= 1
    ensures multiset(Servers(n))['\n'] == n - 1
  {
    var lines := ServerLines(n);
    assert |lines| == n && forall i :: 0 <= i < n ==> lines[i] == ServerLine;
    ServerLineHasNoNewline();
    JoinCopiesNewlines(lines, ServerLine);
  }

  lemma ServerLineHasNoNewline()
    ensures multiset(ServerLine)['\n'] == 0
  {
    NewlineNotInServerLine();
  }

  lemma NewlineNotInServerLine()
    ensures '\n' !in ServerLine
  {
  }

  /** Joining copies of a newline-free text with newlines leaves exactly the separators as
      newlines. */
  lemma {:induction false} JoinCopiesNewlines(xs: seq<string>, line: string)
    requires |xs| >= 1 && multiset(line)['\n'] == 0
    requires forall i :: 0 <= i < |xs| ==> xs[i] == line
    ensures multiset(Join("\n", xs))['\n'] == |xs| - 1
  {
    if |xs| > 1 {
      JoinCopiesNewlines(xs[1..], line);
      var rest := Join("\n", xs[1..]);
      assert Join("\n", xs) == line + "\n" + rest;
      assert multiset(line + "\n" + rest) == multiset(line) + multiset("\n") + multiset(rest);
    }
  }

  /** `{{servers}}` cannot overlap itself. */
  lemma PlaceholderUnbordered()
    ensures Unbordered(Placeholder)
  {
    forall k | 0 < k < |Placeholder|
      ensures Placeholder[..k] != Placeholder[|Placeholder| - k..]
    {
      if k < 10 {
        assert Placeholder[|Placeholder| - k..][0] != '{';
      } else {
        assert Placeholder[|Placeholder| - k..][1] != Placeholder[..k][1];
      }
    }
  }

  /** A template without the placeholder is written out unchanged. */
  lemma TemplateWithoutPlaceholder(template: string, n: int)
    requires !Contains(template, Placeholder)
    ensures GenerateConfig(template, n) == template
  {
    ReplaceAbsent(template, Placeholder, Servers(n));
  }

  /** The text around a single placeholder is kept; the placeholder becomes the server list. */
  lemma TemplateWithOnePlaceholder(p: string, s: string, n: int)
    requires !Contains(p, Placeholder) && !Contains(s, Placeholder)
    ensures GenerateConfig(p + Placeholder + s, n) == p + Servers(n) + s
  {
    TemplateReplacedEverywhere([p, s], n);
    assert [p, s][1..] == [s];
  }

  /** Every placeholder is replaced, and the text between them is kept in order. */
  lemma TemplateReplacedEverywhere(pieces: seq<string>, n: int)
    requires |pieces| >= 1
    requires forall i :: 0 <= i < |pieces| ==> !Contains(pieces[i], Placeholder)
    ensures GenerateConfig(Join(Placeholder, pieces), n) == Join(Servers(n), pieces)
  {
    PlaceholderUnbordered();
    ReplaceJoined(pieces, Placeholder, Servers(n));
  }
}
