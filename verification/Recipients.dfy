/** Who an email may go to (`is_allowed_recipient` in `apps/mcp/fleet_mcp/servers/email.py`). */
module Recipients {
  import opened Wrappers
  import opened Text

  /** The class `[^@\s]`. */
  predicate IsAddressChar(c: char) {
    c != '@' && !IsSpace(c)
  }

  /** `_EMAIL_RE.match(to)`: the domain; `$` also matches before a final newline. */
  function DomainOf(to: string): Option<string> {
    var n := Span(IsAddressChar, to);
    if n == 0 || n == |to| || to[n] != '@' then None else
    var rest := to[n + 1..];
    var m := Span(IsAddressChar, rest);
    if m > 0 && (rest[m..] == "" || rest[m..] == "\n") then Some(rest[..m]) else None
  }

  predicate Allowed(to: string, domains: set<string>) {
    var domain := DomainOf(to);
    domain.Some? && domain.value in domains
  }

  predicate Part(s: string) {
    s != "" && forall i | 0 <= i < |s| :: s[i] != '@' && !IsSpace(s[i])
  }

  /** An address `local@domain`, possibly followed by one newline. */
  function Address(local: string, domain: string, newline: bool): string {
    local + "@" + domain + (if newline then "\n" else "")
  }

  lemma AddressHasDomain(local: string, domain: string, newline: bool)
    requires Part(local) && Part(domain)
    ensures DomainOf(Address(local, domain, newline)) == Some(domain)
  {
    hide Span;
    var end := if newline then "\n" else "";
    var to := Address(local, domain, newline);
    assert to == local + ("@" + (domain + end));
    SpanOfRun(IsAddressChar, local, "@" + (domain + end));
    assert to[|local| + 1..] == domain + end;
    SpanOfRun(IsAddressChar, domain, end);
    assert (domain + end)[..|domain|] == domain && (domain + end)[|domain|..] == end;
  }

  /** A recipient is accepted exactly when it is an address at one of the allowed domains. */
  lemma AllowedExactly(to: string, domains: set<string>)
    ensures Allowed(to, domains)
       <==> exists local, domain, newline ::
              to == Address(local, domain, newline) && Part(local) && Part(domain) && domain in domains
  {
    if Allowed(to, domains) {
      var n := Span(IsAddressChar, to);
      var rest := to[n + 1..];
      var m := Span(IsAddressChar, rest);
      assert rest == rest[..m] + rest[m..];
      assert to == to[..n] + "@" + rest;
      assert to == Address(to[..n], rest[..m], rest[m..] == "\n");
    }
    forall local, domain, newline |
      to == Address(local, domain, newline) && Part(local) && Part(domain) && domain in domains
      ensures Allowed(to, domains)
    {
      AddressHasDomain(local, domain, newline);
    }
  }
}
