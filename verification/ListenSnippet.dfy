/** The generated listen snippet of either server. */
module ListenSnippet {
  import opened Basics
  import Codec
  import Text

  type Port = x: int | 0 <= x < 65536

  /** Which server reads the snippet, and the settings that do not change at run time. */
  datatype Dialect =
    | Nginx(httpsEnabled: bool)
    | Lighttpd(httpsEnabled: bool, sslPemfile: string)

  datatype Ports = Ports(http: Port, https: Port)

  const LIGHTTPD_TLS_OPEN := "$SERVER[\"socket\"] == \"0.0.0.0:"
  const LIGHTTPD_TLS_ENABLED := "\" {\n    ssl.engine  = \"enable\"\n"
  const LIGHTTPD_TLS_BODY := LIGHTTPD_TLS_ENABLED + "    ssl.pemfile = \""
  const LIGHTTPD_TLS_CLOSE := "\"\n}\n"

  function NginxTls(https: Port): string {
    "listen " + (Codec.ToDecimal(https) + " ssl;\n")
  }

  function LighttpdTls(https: Port, pemfile: string): string {
    LIGHTTPD_TLS_OPEN + (Codec.ToDecimal(https) + (LIGHTTPD_TLS_BODY + (pemfile + LIGHTTPD_TLS_CLOSE)))
  }

  function Render(d: Dialect, p: Ports): string {
    match d
    case Nginx(tls) =>
      "listen " + (Codec.ToDecimal(p.http) + (";\n" + if tls then NginxTls(p.https) else ""))
    case Lighttpd(tls, pemfile) =>
      "server.port = " + (Codec.ToDecimal(p.http) + ("\n" + if tls then LighttpdTls(p.https, pemfile) else ""))
  }

  lemma NginxTlsInjective(a: Port, b: Port)
    requires NginxTls(a) == NginxTls(b)
    ensures a == b
  {
    Text.SameTail("listen ", Codec.ToDecimal(a) + " ssl;\n", Codec.ToDecimal(b) + " ssl;\n");
    Codec.DecimalThenStop(a, b, " ssl;\n", " ssl;\n");
  }

  lemma LighttpdTlsInjective(a: Port, b: Port, p: string, q: string)
    requires LighttpdTls(a, p) == LighttpdTls(b, q)
    ensures a == b && p == q
  {
    var x, y := LIGHTTPD_TLS_BODY + (p + LIGHTTPD_TLS_CLOSE), LIGHTTPD_TLS_BODY + (q + LIGHTTPD_TLS_CLOSE);
    Text.SameTail(LIGHTTPD_TLS_OPEN, Codec.ToDecimal(a) + x, Codec.ToDecimal(b) + y);
    assert LIGHTTPD_TLS_BODY[0] == '"';
    assert x[0] == LIGHTTPD_TLS_BODY[0] && y[0] == LIGHTTPD_TLS_BODY[0];
    Codec.DecimalThenStop(a, b, x, y);
    Text.SameTail(LIGHTTPD_TLS_BODY, p + LIGHTTPD_TLS_CLOSE, q + LIGHTTPD_TLS_CLOSE);
    Text.SameHead(p, q, LIGHTTPD_TLS_CLOSE);
  }

  lemma NginxInjective(a: Dialect, b: Dialect, p: Ports, q: Ports)
    requires a.Nginx? && b.Nginx? && Render(a, p) == Render(b, q)
    ensures a == b && p.http == q.http && (a.httpsEnabled ==> p.https == q.https)
  {
    var x := ";\n" + if a.httpsEnabled then NginxTls(p.https) else "";
    var y := ";\n" + if b.httpsEnabled then NginxTls(q.https) else "";
    Text.SameTail("listen ", Codec.ToDecimal(p.http) + x, Codec.ToDecimal(q.http) + y);
    Codec.DecimalThenStop(p.http, q.http, x, y);
    Text.SameTail(";\n", if a.httpsEnabled then NginxTls(p.https) else "",
                  if b.httpsEnabled then NginxTls(q.https) else "");
    if a.httpsEnabled && b.httpsEnabled {
      NginxTlsInjective(p.https, q.https);
    }
  }

  lemma LighttpdInjective(a: Dialect, b: Dialect, p: Ports, q: Ports)
    requires a.Lighttpd? && b.Lighttpd? && Render(a, p) == Render(b, q)
    ensures p.http == q.http && a.httpsEnabled == b.httpsEnabled && (a.httpsEnabled ==> p.https == q.https && a == b)
  {
    var x := "\n" + if a.httpsEnabled then LighttpdTls(p.https, a.sslPemfile) else "";
    var y := "\n" + if b.httpsEnabled then LighttpdTls(q.https, b.sslPemfile) else "";
    Text.SameTail("server.port = ", Codec.ToDecimal(p.http) + x, Codec.ToDecimal(q.http) + y);
    Codec.DecimalThenStop(p.http, q.http, x, y);
    Text.SameTail("\n", if a.httpsEnabled then LighttpdTls(p.https, a.sslPemfile) else "",
                  if b.httpsEnabled then LighttpdTls(q.https, b.sslPemfile) else "");
    if a.httpsEnabled && b.httpsEnabled {
      LighttpdTlsInjective(p.https, q.https, a.sslPemfile, b.sslPemfile);
    }
  }

  /** The same ports as far as the server listens on them. */
  predicate SamePorts(d: Dialect, p: Ports, q: Ports) {
    p.http == q.http && (d.httpsEnabled ==> p.https == q.https)
  }

  /** Two snippets have the same content exactly when they enable the same ports. */
  lemma SnippetDeterminesPorts(d: Dialect, p: Ports, q: Ports)
    ensures Render(d, p) == Render(d, q) <==> SamePorts(d, p, q)
  {
    if Render(d, p) == Render(d, q) {
      if d.Nginx? {
        NginxInjective(d, d, p, q);
      } else {
        LighttpdInjective(d, d, p, q);
      }
    }
  }

  // ---- Reading a snippet ------------------------------------------------------------------

  /** The digits a text starts with. */
  function Digits(text: string): (r: string)
    ensures Codec.AllDigits(r)
  {
    if text != "" && Codec.IsDigit(text[0]) then [text[0]] + Digits(text[1..]) else ""
  }

  /** The number between the first place where mark stands and end. */
  function NumberBetween(text: string, mark: string, end: string): Option<nat> {
    match Text.After(text, mark)
    case None => None
    case Some(rest) => if Digits(rest) + end <= rest then Some(Codec.FromDecimal(Digits(rest))) else None
  }

  /** nginx: the port of the first listen line. */
  function NginxHttp(text: string): Option<nat> {
    NumberBetween(text, "listen ", ";\n")
  }

  /** nginx: the port of the second listen line, which is a TLS one. */
  function NginxHttps(text: string): Option<nat> {
    match Text.After(text, "listen ")
    case None => None
    case Some(rest) => NumberBetween(rest, "listen ", " ssl;\n")
  }

  /** lighttpd: the plain port, and the port of the TLS socket. */
  function LighttpdHttp(text: string): Option<nat> {
    NumberBetween(text, "server.port = ", "\n")
  }

  function LighttpdHttps(text: string): Option<nat> {
    NumberBetween(text, "$SERVER[\"socket\"] == \"0.0.0.0:", "\" {\n    ssl.engine  = \"enable\"\n")
  }

  /** A server that has loaded this text listens for HTTP on p.http, and for HTTPS on
      p.https if TLS is on and nowhere if it is off. */
  predicate ListensOn(d: Dialect, text: string, p: Ports) {
    var https := if d.httpsEnabled then Some(p.https) else None;
    match d
    case Nginx(_) => NginxHttp(text) == Some(p.http) && NginxHttps(text) == https
    case Lighttpd(_, _) => LighttpdHttp(text) == Some(p.http) && LighttpdHttps(text) == https
  }

  lemma {:induction false} DigitsOf(digits: string, rest: string)
    requires Codec.AllDigits(digits) && (rest == "" || !Codec.IsDigit(rest[0]))
    ensures Digits(digits + rest) == digits
  {
    if digits == "" {
      assert digits + rest == rest;
    } else {
      assert (digits + rest)[1..] == digits[1..] + rest;
      DigitsOf(digits[1..], rest);
    }
  }

  /** A printed number between its mark and its end is read back. */
  lemma NumberIsRead(front: string, mark: string, n: nat, end: string, rest: string)
    requires mark != "" && mark[0] !in front && end != "" && !Codec.IsDigit(end[0])
    ensures NumberBetween(front + (mark + (Codec.ToDecimal(n) + (end + rest))), mark, end) == Some(n)
  {
    hide Codec.ToDecimal, Codec.FromDecimal, Text.After, Digits;
    var digits := Codec.ToDecimal(n);
    var body := digits + (end + rest);
    Text.FindBehind(front, mark + body, mark);
    Text.AfterHere(mark, body);
    DigitsOf(digits, end + rest);
    assert body == (digits + end) + rest;
    Codec.DecimalRoundTrip(n);
  }

  lemma NginxIsRead(tls: bool, p: Ports)
    ensures ListensOn(Nginx(tls), Render(Nginx(tls), p), p)
  {
    hide Codec.ToDecimal, NumberBetween, Text.After;
    var mark, digits := "listen ", Codec.ToDecimal(p.http);
    var second := if tls then NginxTls(p.https) else "";
    var rest := digits + (";\n" + second);
    var text := Render(Nginx(tls), p);
    assert text == mark + rest;
    NumberIsRead("", mark, p.http, ";\n", second);
    assert "" + text == text;
    Text.AfterHere(mark, rest);
    var front := digits + ";\n";
    assert rest == front + second;
    NoLetterL(p.http);
    if tls {
      NumberIsRead(front, mark, p.https, " ssl;\n", "");
      assert second == mark + (Codec.ToDecimal(p.https) + (" ssl;\n" + ""));
    } else {
      NothingToRead(front, mark, " ssl;\n");
      assert rest == front;
    }
  }

  lemma NoLetterL(n: nat)
    ensures 'l' !in Codec.ToDecimal(n) + ";\n"
  {
    hide Codec.ToDecimal;
    assert forall i | 0 <= i < |Codec.ToDecimal(n)| :: Codec.IsDigit(Codec.ToDecimal(n)[i]);
  }

  lemma NothingToRead(text: string, mark: string, end: string)
    requires mark != "" && mark[0] !in text
    ensures NumberBetween(text, mark, end) == None
  {
    Text.FindBehind(text, "", mark);
    assert text + "" == text;
    Text.FindInNothing(mark);
  }

  lemma Regroup(a: string, b: string, c: string, d: string)
    ensures (a + b) + (c + d) == a + (b + c + d)
  {
  }

  /** The two parts of the TLS text around the port, and what follows them. */
  lemma TlsText(p: Port, pemfile: string)
    ensures LighttpdTls(p, pemfile)
            == "$SERVER[\"socket\"] == \"0.0.0.0:"
               + (Codec.ToDecimal(p) + (LIGHTTPD_TLS_ENABLED + ("    ssl.pemfile = \"" + pemfile + "\"\n}\n")))
  {
    hide Codec.ToDecimal;
    Regroup(LIGHTTPD_TLS_ENABLED, "    ssl.pemfile = \"", pemfile, LIGHTTPD_TLS_CLOSE);
  }

  lemma NoDollar(n: nat)
    ensures '$' !in "server.port = " + Codec.ToDecimal(n) + "\n"
  {
    hide Codec.ToDecimal;
    assert forall i | 0 <= i < |Codec.ToDecimal(n)| :: Codec.IsDigit(Codec.ToDecimal(n)[i]);
  }

  lemma LighttpdIsRead(tls: bool, pemfile: string, p: Ports)
    ensures ListensOn(Lighttpd(tls, pemfile), Render(Lighttpd(tls, pemfile), p), p)
    ensures tls ==> Text.After(Render(Lighttpd(tls, pemfile), p), "$SERVER[\"socket\"] == \"0.0.0.0:")
                    == Some(Codec.ToDecimal(p.https) + ("\" {\n    ssl.engine  = \"enable\"\n"
                            + ("    ssl.pemfile = \"" + pemfile + "\"\n}\n")))
  {
    hide Codec.ToDecimal, NumberBetween, Text.After, LighttpdTls;
    var mark, open := "server.port = ", "$SERVER[\"socket\"] == \"0.0.0.0:";
    var text := Render(Lighttpd(tls, pemfile), p);
    var second := if tls then LighttpdTls(p.https, pemfile) else "";
    NumberIsRead("", mark, p.http, "\n", second);
    assert "" + text == text;
    var front := mark + Codec.ToDecimal(p.http) + "\n";
    assert text == front + second;
    NoDollar(p.http);
    if tls {
      TlsText(p.https, pemfile);
      var close := "    ssl.pemfile = \"" + pemfile + "\"\n}\n";
      NumberIsRead(front, open, p.https, LIGHTTPD_TLS_ENABLED, close);
      Text.FindBehind(front, second, open);
      Text.AfterHere(open, Codec.ToDecimal(p.https) + (LIGHTTPD_TLS_ENABLED + close));
    } else {
      assert text == front;
      NothingToRead(front, open, LIGHTTPD_TLS_ENABLED);
    }
  }

  /** What is rendered is read back: a server that loads the rendering of some ports
      listens on exactly those. */
  lemma RenderIsRead(d: Dialect, p: Ports)
    ensures ListensOn(d, Render(d, p), p)
  {
    match d
    case Nginx(tls) => NginxIsRead(tls, p);
    case Lighttpd(tls, pemfile) => LighttpdIsRead(tls, pemfile, p);
  }

  /** And on others exactly if they are the same as far as the server listens. */
  lemma ListensExactly(d: Dialect, loaded: Ports, p: Ports)
    ensures ListensOn(d, Render(d, loaded), p) <==> SamePorts(d, loaded, p)
  {
    hide Render, NumberBetween;
    RenderIsRead(d, loaded);
  }
}
