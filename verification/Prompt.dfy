/** What untrusted text can do to the prompt that asks for approval: fill its own place in it. */
module Prompt {
  import opened Strings
  import opened Text
  import opened Binding
  import opened Requester
  import opened Confirm

  /** Nothing but plain characters and line breaks. */
  predicate IsText(s: string) {
    forall i | 0 <= i < |s| :: IsPlain(s[i]) || s[i] == '\n'
  }

  lemma TextGoesOn(a: string, b: string)
    requires IsText(a) && IsText(b)
    ensures IsText(a + b)
  {
  }

  predicate IsPrintableAscii(s: string) { forall i | 0 <= i < |s| :: ' ' <= s[i] <= '~' }

  lemma AsciiIsInert(s: string)
    requires IsPrintableAscii(s)
    ensures Inert(s)
  {
  }

  lemma LineIsText(title: string, text: string)
    requires IsPrintableAscii(title) && IsText(text)
    ensures IsText(Labelled(title, text))
  {
    TextGoesOn("\n", title);
    TextGoesOn("\n" + title, text);
  }

  lemma {:induction false} JoinIsInert(parts: seq<string>, sep: string)
    requires Inert(sep) && forall i | 0 <= i < |parts| :: Inert(parts[i])
    ensures Inert(Join(parts, sep))
    decreases |parts|
  {
    if |parts| > 1 {
      JoinIsInert(parts[1..], sep);
      InertJoins(parts[0], sep);
      InertJoins(parts[0] + sep, Join(parts[1..], sep));
    }
  }

  lemma {:induction false} BundleIsInert(path: string)
    requires Inert(path)
    ensures Bundle(path).Some? ==> Inert(Bundle(path).value)
    decreases |path|
  {
    var slash := Find(path, "/", 0);
    if slash.Some? {
      BundleIsInert(path[slash.value + 1..]);
    }
  }

  lemma NameIsInert(path: string)
    requires Inert(path)
    ensures Inert(DisplayName(path))
  {
    BundleIsInert(path);
  }

  lemma ArrowIsInert()
    ensures Inert(ARROW)
  {
  }

  lemma OriginIsInert(origin: seq<Ancestor>)
    requires WellDescribed(origin)
    ensures Inert(Join(NamesOf(origin), ARROW))
  {
    forall i | 0 <= i < |origin| ensures Inert(NamesOf(origin)[i]) {
      assert WellNamed(origin[i]);
      NameIsInert(origin[i].path);
    }
    ArrowIsInert();
    JoinIsInert(NamesOf(origin), ARROW);
  }

  lemma IdsAreInert(head: string, pid: string, uid: string)
    requires Inert(head) && Inert(pid) && Inert(uid)
    ensures Inert(head + pid + ", uid " + uid + ")")
  {
    InertJoins(head, pid);
    InertJoins(head + pid, ", uid ");
    InertJoins(head + pid + ", uid ", uid);
    InertJoins(head + pid + ", uid " + uid, ")");
  }

  lemma RequesterIsText(ctx: Context)
    requires WellBuilt(ctx)
    ensures IsText(RequestedBy(ctx))
  {
    if ctx.peer.Some? {
      var uid := Decimal(ctx.peer.value.uid);
      var pid := if ctx.peer.value.pid.Some? then Decimal(ctx.peer.value.pid.value) else "0";
      DecimalIsInert(ctx.peer.value.uid);
      if ctx.peer.value.pid.Some? { DecimalIsInert(ctx.peer.value.pid.value); }
      if ctx.requester.Some? {
        KnownRequesterIsText(ctx.requester.value, pid, uid);
      } else {
        InertJoins("uid ", uid);
        AsciiIsInert("unknown process (pid ");
        IdsAreInert("unknown process (pid ", pid, uid);
      }
    }
  }

  lemma KnownRequesterIsText(r: Requester, pid: string, uid: string)
    requires Inert(r.process) && WellDescribed(r.origin) && Inert(pid) && Inert(uid)
    ensures IsText(r.process + " (pid " + pid + ", uid " + uid + ")"
                   + (if r.origin == [] then "" else Labelled("Started from: ", Join(NamesOf(r.origin), ARROW))))
  {
    var line := r.process + " (pid " + pid + ", uid " + uid + ")";
    InertJoins(r.process, " (pid ");
    IdsAreInert(r.process + " (pid ", pid, uid);
    if r.origin == [] {
      TextGoesOn(line, "");
    } else {
      OriginIsInert(r.origin);
      LineIsText("Started from: ", Join(NamesOf(r.origin), ARROW));
      TextGoesOn(line, Labelled("Started from: ", Join(NamesOf(r.origin), ARROW)));
    }
  }

  lemma LinesAreText(head: string, a: string, b: string, c: string, d: string)
    requires IsText(head) && IsText(a) && IsText(b) && IsText(c) && IsText(d)
    ensures IsText(head + a + b + c + d)
  {
    TextGoesOn(head, a);
    TextGoesOn(head + a, b);
    TextGoesOn(head + a + b, c);
    TextGoesOn(head + a + b + c, d);
  }

  lemma FieldIsText(title: string, text: string)
    requires IsPrintableAscii(title) && Inert(text)
    ensures IsText(Labelled(title, text))
  {
    LineIsText(title, text);
  }

  lemma TitleIsText()
    ensures IsText("SSH signature request\n")
  {
    AsciiIsInert("SSH signature request");
    TextGoesOn("SSH signature request", "\n");
    assert "SSH signature request\n" == "SSH signature request" + "\n";
  }

  lemma KeyIsText(name: string)
    ensures IsText(Labelled("Key: ", DisplayBounded(name)))
  {
    BoundedIsInert(name);
    FieldIsText("Key: ", DisplayBounded(name));
  }

  lemma EscapedFieldIsText(title: string, value: string)
    requires IsPrintableAscii(title)
    ensures IsText(Labelled(title, Escaped(value)))
  {
    EscapedIsInert(value);
    FieldIsText(title, Escaped(value));
  }

  lemma RequesterLineIsText(ctx: Context)
    requires WellBuilt(ctx)
    ensures IsText(Labelled("Requested by: ", RequestedBy(ctx)))
  {
    RequesterIsText(ctx);
    LineIsText("Requested by: ", RequestedBy(ctx));
  }

  lemma HeadingIsText(ctx: Context)
    requires WellBuilt(ctx)
    ensures IsText(Heading(ctx))
  {
    TitleIsText();
    KeyIsText(ctx.keyName);
    EscapedFieldIsText("Fingerprint: ", ctx.fingerprint);
    EscapedFieldIsText("LastPass item: ", ctx.itemId);
    RequesterLineIsText(ctx);
    LinesAreText("SSH signature request\n", Labelled("Key: ", DisplayBounded(ctx.keyName)),
                 Labelled("Fingerprint: ", Escaped(ctx.fingerprint)), Labelled("LastPass item: ", Escaped(ctx.itemId)),
                 Labelled("Requested by: ", RequestedBy(ctx)));
  }

  lemma AsciiGoesOn(text: string, more: string)
    requires Inert(text) && IsPrintableAscii(more)
    ensures Inert(text + more)
  {
    AsciiIsInert(more);
    InertJoins(text, more);
  }

  lemma ForwardedIsInert()
    ensures Inert("the agent is forwarded to a host below ")
  {
    AsciiIsInert("the agent is forwarded to a host below ");
  }

  lemma OriginatedIsInert()
    ensures Inert(" this request may have originated there")
  {
    AsciiIsInert(" this request may have originated there");
  }

  lemma CautionIsInert()
    ensures Inert(CAUTION)
  {
    ForwardedIsInert();
    InertJoins("the agent is forwarded to a host below ", "\U{2014}");
    OriginatedIsInert();
    AsciiGoesOn(" this request may have originated there", " rather than on this machine.");
    InertJoins("the agent is forwarded to a host below " + "\U{2014}",
               " this request may have originated there" + " rather than on this machine.");
  }

  lemma WarningIsText()
    ensures IsText(WARNING)
  {
    CautionIsInert();
    FieldIsText("WARNING: ", CAUTION);
    TextGoesOn("\n", Labelled("WARNING: ", CAUTION));
  }

  lemma MarkedIsInert(shown: string)
    requires Inert(shown)
    ensures Inert(shown + " (forwarding the agent onward)") && Inert(shown + "")
  {
    AsciiGoesOn(shown, " (forwarding the agent onward)");
  }

  lemma HopIsInert(hop: SessionBinding)
    ensures Inert(HopShown(hop))
  {
    if hop.hostName.Some? {
      BoundedIsInert(hop.hostName.value);
      MarkedIsInert(DisplayBounded(hop.hostName.value));
    } else {
      BoundedIsInert(hop.fingerprint);
      MarkedIsInert(DisplayBounded(hop.fingerprint));
    }
  }

  lemma SessionIsText(chain: Chain)
    ensures IsText(Labelled("SSH session: ", Join(HopsShown(chain), ARROW)))
  {
    forall i | 0 <= i < |chain| ensures Inert(HopsShown(chain)[i]) {
      HopIsInert(chain[i]);
    }
    ArrowIsInert();
    JoinIsInert(HopsShown(chain), ARROW);
    FieldIsText("SSH session: ", Join(HopsShown(chain), ARROW));
  }

  /** Whatever a vault item, a process, a path or a host is called, the prompt has no control or
      invisible character in it but its own line breaks. */
  lemma UntrustedTextIsHarmless(ctx: Context)
    requires WellBuilt(ctx)
    ensures IsText(DescribeRequest(ctx))
  {
    HeadingIsText(ctx);
    SessionIsText(ctx.bindings);
    WarningIsText();
    TextGoesOn(Heading(ctx), WARNING);
    TextGoesOn(Heading(ctx) + WARNING, Labelled("SSH session: ", Join(HopsShown(ctx.bindings), ARROW)));
    TextGoesOn(Heading(ctx), Labelled("SSH session: ", Join(HopsShown(ctx.bindings), ARROW)));
  }
}
