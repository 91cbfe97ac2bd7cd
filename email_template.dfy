/** The contact-form email of `generateEmailTemplate.js`: the same inquiry rendered
    as an HTML page and as plain text. Every field is inserted as it is, with no
    escaping; the phone line is there only for a truthy phone, and the image count
    and attachment list only for a non-empty image list. */
module EmailTemplate {
  import opened Wrappers
  import opened Strings

  /** One uploaded image; only its mimetype is used. */
  datatype Attachment = Attachment(mimetype: string)

  /** `formData`: the inquiry's fields, with the optional phone and image list. */
  datatype Inquiry = Inquiry(firstName: string, lastName: string, email: string, phone: Option<string>,
                             message: string, images: Option<seq<Attachment>>)

  /** The two renderings returned together. */
  datatype Email = Email(html: string, text: string)

  // ---------------------------------------------------------------- shared pieces

  /** `formData.images && formData.images.length > 0`. */
  predicate HasImages(d: Inquiry) {
    d.images.Some? && |d.images.value| > 0
  }

  function ImageCount(d: Inquiry): nat {
    if d.images.Some? then |d.images.value| else 0
  }

  /** The Bulgarian plural ending used after `снимк` and `прикачен`. */
  function Suffix(n: nat): (r: string)
    ensures r == "а" <==> n == 1
    ensures r == "и" <==> n != 1
  {
    if n == 1 then "а" else "и"
  }

  /** The file extension listed for an attachment. */
  function Extension(mimetype: string): (r: string)
    ensures r == "png" <==> mimetype == "image/png"
    ensures r == "webp" <==> mimetype == "image/webp"
    ensures r == "jpg" <==> mimetype != "image/png" && mimetype != "image/webp"
  {
    if mimetype == "image/png" then "png" else if mimetype == "image/webp" then "webp" else "jpg"
  }

  function FullName(d: Inquiry): string {
    d.firstName + " " + d.lastName
  }

  /** `N снимкX прикаченX`. */
  function CountPhrase(n: nat): string {
    NatStr(n) + " снимк" + Suffix(n) + " прикачен" + Suffix(n)
  }

  /** The text list's line for the image at 0-based `index`. */
  function AttachmentLine(index: nat, a: Attachment): string {
    "- снимка_" + NatStr(index + 1) + "." + Extension(a.mimetype)
  }

  function AttachmentLines(images: seq<Attachment>): (r: seq<string>)
    ensures |r| == |images|
    ensures forall k :: 0 <= k < |images| ==> r[k] == AttachmentLine(k, images[k])
  {
    seq(|images|, k requires 0 <= k < |images| => AttachmentLine(k, images[k]))
  }

  /** The `map(…).join('\n')` of the text template. */
  function AttachmentList(images: seq<Attachment>): string {
    Join(AttachmentLines(images), "\n")
  }

  // ---------------------------------------------------------------- plain text

  const Heading := "ЗАЯВКА ЗА РЕМОНТ НА ЧАСОВНИЦИ"
  const Underline := "============================"
  const ContactHeading := "ДАННИ ЗА КОНТАКТ:"
  const MessageHeading := "СЪОБЩЕНИЕ ОТ КЛИЕНТА:"
  const AttachmentsHeading := "ПРИКАЧЕНИ СНИМКИ:"
  const Signature := "Това съобщение е изпратено " + "чрез контактната форма на " + "theWatchMaker - поздрави Виктор."

  function TextPhone(d: Inquiry): string {
    if Truthy(d.phone) then "Телефон: " + d.phone.value else ""
  }

  function TextCount(d: Inquiry): string {
    if HasImages(d) then "Снимки: " + CountPhrase(ImageCount(d)) else ""
  }

  function TextAttachments(d: Inquiry): string {
    if HasImages(d) then "\n" + AttachmentsHeading + "\n" + AttachmentList(d.images.value) + "\n" else ""
  }

  const NameLabel := "Име: "
  const EmailLabel := "Имейл: "
  const Rule := "---"
  const TextIndent := "  "

  /** `textTemplate`. */
  function Text(d: Inquiry): string {
    "\n" + Heading + "\n" + Underline + "\n" + "\n" + ContactHeading + "\n" + NameLabel + FullName(d)
    + "\n" + EmailLabel + d.email + "\n" + TextPhone(d) + "\n" + TextCount(d)
    + "\n" + "\n" + MessageHeading + "\n" + d.message + "\n" + "\n" + TextAttachments(d)
    + "\n" + "\n" + Rule + "\n" + Signature + "\n" + TextIndent
  }

  // ---------------------------------------------------------------- HTML

  /** Everything before the first name: the document head, its style sheet and the banner. */
  const HtmlOpening: string := @"
    <!DOCTYPE html PUBLIC ""-//W3C//DTD XHTML 1.0 Transitional//EN"" ""http://www.w3.org/TR/xhtml1/DTD/xhtml1-transitional.dtd"">
    <html xmlns=""http://www.w3.org/1999/xhtml"">
    <head>
      <meta http-equiv=""Content-Type"" content=""text/html; charset=UTF-8"" />
      <meta name=""viewport"" content=""width=device-width, initial-scale=1.0""/>
      <title>Контакт за ремонт на часовници</title>
      <style type=""text/css"">
        body { 
          margin: 0; 
          padding: 0; 
          font-family: Georgia, 'Times New Roman', serif; 
          font-size: 16px; 
          line-height: 1.6; 
          color: #2d1810; 
          background-color: #f8f6f1;
          min-height: 100vh;
        }
        table { border-collapse: collapse; }
        img { border: 0; height: auto; line-height: 100%; outline: none; text-decoration: none; }
        p { margin: 0; padding: 0; }
        .container { 
          width: 100%; 
          max-width: 700px; 
          margin: 0 auto; 
          background: #ffffff;
          border-radius: 12px;
          overflow: hidden;
          box-shadow: 0 4px 20px rgba(0, 0, 0, 0.08);
          border: 1px solid #e8e2d6;
        }
        .header { 
          background: linear-gradient(135deg, #c9986a 0%, #b8915c 50%, #a67c47 100%);
          color: #f2f0ed; 
          text-align: center; 
          padding: 40px 30px;
          position: relative;
        }
        .header::before {
          content: '';
          position: absolute;
          top: 0;
          left: 0;
          right: 0;
          bottom: 0;
          background: linear-gradient(45deg, rgba(255,255,255,0.1) 0%, transparent 50%, rgba(255,255,255,0.05) 100%);
          pointer-events: none;
        }
        .header h1 { 
          margin: 0; 
          font-size: 28px; 
          font-weight: 600; 
          text-shadow: 0 2px 4px rgba(0,0,0,0.3);
          letter-spacing: 0.5px;
        }
        .header p {
          margin: 12px 0 0 0; 
          font-size: 15px; 
          opacity: 0.9;
          font-style: italic;
        }
        .content { 
          background: #ffffff; 
          padding: 35px 30px; 
        }
        .card { 
          background: #fbf9f5; 
          border: 1px solid #e8e2d6; 
          margin-bottom: 24px; 
          border-radius: 8px;
          overflow: hidden;
          box-shadow: 0 2px 8px rgba(0,0,0,0.05);
        }
        .card-header { 
          background: #f5f1ea; 
          padding: 20px 25px; 
          border-bottom: 1px solid #e8e2d6; 
        }
        .card-body { 
          padding: 25px; 
        }
        .label { 
          font-weight: bold; 
          color: #5a4c3a; 
          display: inline-block;
          min-width: 90px;
          margin-right: 8px;
        }
        .value { 
          color: #2d1810; 
        }
        .email-link { 
          color: #ae8e4d; 
          text-decoration: none; 
        }
        .email-link:hover {
          color: #8b7240;
        }
        .message-box { 
          background: #fefcf8; 
          padding: 25px; 
          border-left: 4px solid #ae8e4d; 
          white-space: pre-wrap; 
          border-radius: 6px;
          border: 1px solid #f0ebe1;
          color: #2d1810;
        }
        .attachment-badge { 
          background: linear-gradient(135deg, rgba(201, 152, 106, 0.2) 0%, rgba(184, 145, 92, 0.15) 100%); 
          color: #f0c674; 
          padding: 6px 14px; 
          border-radius: 20px; 
          font-size: 13px; 
          font-weight: bold; 
          border: 1px solid #c9986a; 
          display: inline-block;
        }
        .btn { 
          display: inline-block; 
          padding: 14px 28px; 
          margin: 8px; 
          text-decoration: none; 
          font-weight: bold; 
          font-size: 14px; 
          border-radius: 8px; 
          transition: all 0.3s ease;
        }
        .btn-primary { 
          background: #c9986a; 
          color: #f2f0ed; 
        }
        .btn-primary:hover {
          background: #ec9c50ff; 
          color: #ffffffff;
        }
       
        .footer { 
          background: #ae8e4d; 
          color: #fff8f0ff; 
          padding: 25px; 
          text-align: center; 
          font-size: 14px; 
        }
        h2 {
          margin: 0; 
          font-size: 18px; 
          font-weight: 600; 
          color: #2d1810;
        }
      </style>
    </head>
    <body>
      <table role=""presentation"" cellspacing=""0"" cellpadding=""0"" border=""0"" width=""100%"">
        <tr>
          <td>
            <table class=""container"" role=""presentation"" cellspacing=""0"" cellpadding=""0"" border=""0"">
              <tr>
                <td class=""header"">
                  <h1>⌚ Контакт за ремонт на часовници</h1>
                  <p>Ново запитване получено</p>
                </td>
              </tr>
              
              <tr>
                <td class=""content"">
                  <table class=""card"" role=""presentation"" cellspacing=""0"" cellpadding=""0"" border=""0"" width=""100%"">
                    <tr>
                      <td class=""card-header"">
                        <h2>👤 Данни за контакт</h2>
                      </td>
                    </tr>
                    <tr>
                      <td class=""card-body"">
                        <p style=""margin-bottom: 12px;""><span class=""label"">Име:</span> <span class=""value"">"

  /** Between the full name and the email address. */
  const HtmlBeforeEmail: string := @"</span></p>
                        <p style=""margin-bottom: 12px;""><span class=""label"">Имейл:</span> <span class=""value"">"

  /** Between the email address and the optional phone paragraph. */
  const HtmlBeforePhone: string := @"</span></p>
                        "

  /** Between the phone paragraph and the optional image-count paragraph. */
  const HtmlBeforeCount: string := @"
                        "

  /** From the end of the contact card to the start of the message box. */
  const HtmlBeforeMessage: string := @"
                      </td>
                    </tr>
                  </table>
                  
                  <table class=""card"" role=""presentation"" cellspacing=""0"" cellpadding=""0"" border=""0"" width=""100%"">
                    <tr>
                      <td class=""card-header"">
                        <h2>💬 Съобщение от клиента</h2>
                      </td>
                    </tr>
                    <tr>
                      <td class=""card-body"">
                        <div class=""message-box"">"

  /** From the end of the message box to the optional attachments card. */
  const HtmlAfterMessage: string := @"</div>
                      </td>
                    </tr>
                  </table>
                  
                  "

  /** The footer and the end of the document. */
  const HtmlClosing: string := @"
                </td>
              </tr>
              
              <tr>
                <td class=""footer"">
                  <p>Това съобщение е изпратено чрез контактната форма за ремонт на часовници. поздрави Виктор</p>
                </td>
              </tr>
            </table>
          </td>
        </tr>
      </table>
    </body>
    </html>
  "

  /** The phone paragraph up to the number. */
  const PhoneOpening: string := @"<p style=""margin-bottom: 12px;""><span class=""label"">Телефон:</span> <span class=""value"">"

  /** The image-count paragraph up to the count. */
  const CountOpening: string := @"<p style=""margin-bottom: 12px;""><span class=""label"">Снимки:</span> <span class=""value"">"

  /** The end of the phone and image-count paragraphs. */
  const ParagraphClosing: string := @"</span></p>"

  /** The attachments card up to the count. */
  const AttachmentsOpening: string := @"
                  <table class=""card"" role=""presentation"" cellspacing=""0"" cellpadding=""0"" border=""0"" width=""100%"">
                    <tr>
                      <td class=""card-header"">
                        <h2>📷 Прикачени снимки</h2>
                      </td>
                    </tr>
                    <tr>
                      <td class=""card-body"">
                        <p style=""color: #5a4c3a; margin: 0; font-style: italic;"">"

  /** The rest of the attachments card after the plural suffix. */
  const AttachmentsClosing: string := @" като файлове към този имейл.</p>
                      </td>
                    </tr>
                  </table>"

  /** The fixed text of the HTML template, piece by piece, in the order the pieces
      appear; the lemmas below hold whatever these pieces are. */
  datatype PageText = PageText(opening: string, beforeEmail: string, beforePhone: string, beforeCount: string,
                               beforeMessage: string, afterMessage: string, closing: string,
                               phoneOpening: string, countOpening: string, paragraphClosing: string,
                               attachmentsOpening: string, attachmentsClosing: string)

  const Layout := PageText(HtmlOpening, HtmlBeforeEmail, HtmlBeforePhone, HtmlBeforeCount, HtmlBeforeMessage,
                           HtmlAfterMessage, HtmlClosing, PhoneOpening, CountOpening, ParagraphClosing,
                           AttachmentsOpening, AttachmentsClosing)

  function HtmlPhone(t: PageText, d: Inquiry): string {
    if Truthy(d.phone) then t.phoneOpening + d.phone.value + t.paragraphClosing else ""
  }

  function HtmlCount(t: PageText, d: Inquiry): string {
    if HasImages(d) then t.countOpening + CountPhrase(ImageCount(d)) + t.paragraphClosing else ""
  }

  function HtmlAttachments(t: PageText, d: Inquiry): string {
    if HasImages(d) then
      var n := ImageCount(d);
      t.attachmentsOpening + NatStr(n) + " снимк" + Suffix(n) + " са прикачен" + Suffix(n) + t.attachmentsClosing
    else ""
  }

  /** The HTML template with page text `t` around the inquiry's fields. */
  function HtmlPage(t: PageText, d: Inquiry): string {
    t.opening + FullName(d) + t.beforeEmail + d.email + t.beforePhone + HtmlPhone(t, d)
    + t.beforeCount + HtmlCount(t, d) + t.beforeMessage + d.message + t.afterMessage
    + HtmlAttachments(t, d) + t.closing
  }

  /** `htmlTemplate`. */
  function Html(d: Inquiry): string {
    HtmlPage(Layout, d)
  }

  /** `generateEmailTemplate(formData)`. */
  function Render(d: Inquiry): Email {
    Email(Html(d), Text(d))
  }

  // ---------------------------------------------------------------- properties

  /** A phone that is missing or empty leaves the text as if there were none, and
      so does an image list that is missing or empty. */
  lemma TextHidesSections(d: Inquiry)
    ensures !Truthy(d.phone) ==> Text(d) == Text(d.(phone := None))
    ensures !HasImages(d) ==> Text(d) == Text(d.(images := None))
  {
  }

  /** The same for the HTML page. */
  lemma HtmlHidesSections(t: PageText, d: Inquiry)
    ensures !Truthy(d.phone) ==> HtmlPage(t, d) == HtmlPage(t, d.(phone := None))
    ensures !HasImages(d) ==> HtmlPage(t, d) == HtmlPage(t, d.(images := None))
  {
  }

  /** A piece between two others sits right after the first. */
  lemma PieceAt(before: string, x: string, after: string)
    ensures (before + x + after)[|before|..|before| + |x|] == x
  {
  }

  /** Where the fields fall in a page assembled like the HTML template. */
  lemma FieldsAt(o: string, name: string, be: string, email: string, bp: string, ph: string, bc: string,
                 hc: string, bm: string, msg: string, am: string, at: string, cl: string)
    ensures var page := o + name + be + email + bp + ph + bc + hc + bm + msg + am + at + cl;
      && page[|o|..|o| + |name|] == name
      && page[|o + name + be|..|o + name + be| + |email|] == email
      && page[|o + name + be + email + bp + ph + bc + hc + bm|..|o + name + be + email + bp + ph + bc + hc + bm| + |msg|] == msg
  {
    var tail := am + at + cl;
    var toMessage := o + name + be + email + bp + ph + bc + hc + bm;
    PieceAt(toMessage, msg, tail);
    var toEmail := o + name + be;
    var afterEmail := bp + ph + bc + hc + bm + msg + tail;
    PieceAt(toEmail, email, afterEmail);
    PieceAt(o, name, be + email + afterEmail);
  }

  /** The HTML page shows the full name and the email address verbatim, each right
      after the page text that precedes it. */
  lemma HtmlShowsContact(t: PageText, d: Inquiry)
    ensures var o := |t.opening|;
      HtmlPage(t, d)[o..o + |FullName(d)|] == FullName(d)
    ensures var o := |t.opening + FullName(d) + t.beforeEmail|;
      HtmlPage(t, d)[o..o + |d.email|] == d.email
  {
    FieldsAt(t.opening, FullName(d), t.beforeEmail, d.email, t.beforePhone, HtmlPhone(t, d), t.beforeCount,
             HtmlCount(t, d), t.beforeMessage, d.message, t.afterMessage, HtmlAttachments(t, d), t.closing);
  }

  /** The message, verbatim, right after the text that precedes it, which includes
      the phone and image-count paragraphs when they are shown. */
  lemma HtmlShowsMessage(t: PageText, d: Inquiry)
    ensures var o := |t.opening + FullName(d) + t.beforeEmail + d.email + t.beforePhone + HtmlPhone(t, d)
                      + t.beforeCount + HtmlCount(t, d) + t.beforeMessage|;
      HtmlPage(t, d)[o..o + |d.message|] == d.message
  {
    FieldsAt(t.opening, FullName(d), t.beforeEmail, d.email, t.beforePhone, HtmlPhone(t, d), t.beforeCount,
             HtmlCount(t, d), t.beforeMessage, d.message, t.afterMessage, HtmlAttachments(t, d), t.closing);
  }

  /** The number in an attachment line reads back as the image's 1-based position,
      and the extension as the one for its mimetype. */
  lemma AttachmentLineReadsBack(index: nat, a: Attachment)
    ensures var halves := Split(AttachmentLine(index, a), '_');
      && |halves| == 2 && halves[0] == "- снимка"
      && var name := Split(halves[1], '.');
      && |name| == 2 && AllDigits(name[0]) && DigitsValue(name[0]) == index + 1
      && name[1] == Extension(a.mimetype)
  {
    var num, ext := NatStr(index + 1), Extension(a.mimetype);
    var prefix := "- снимка";
    DigitsHaveNo(num, '_');
    DigitsHaveNo(num, '.');
    assert '_' !in ext && '.' !in ext && '_' !in prefix;
    assert AttachmentLine(index, a) == prefix + "_" + (num + "." + ext);
    JoinTwo(prefix, num + "." + ext, "_");
    SplitJoin([prefix, num + "." + ext], '_');
    JoinTwo(num, ext, ".");
    SplitJoin([num, ext], '.');
    NatStrRoundTrip(index + 1);
  }

  /** The list has one line per image, in order: splitting it at newlines gives
      the lines back. */
  lemma AttachmentListLines(images: seq<Attachment>)
    requires |images| >= 1
    ensures Split(AttachmentList(images), '\n') == AttachmentLines(images)
  {
    var lines := AttachmentLines(images);
    forall k | 0 <= k < |lines| ensures '\n' !in lines[k] {
      DigitsHaveNo(NatStr(k + 1), '\n');
      assert '\n' !in Extension(images[k].mimetype);
    }
    SplitJoin(lines, '\n');
  }

  /** The contact card of the text rendering, regrouped at its last newline. */
  lemma TextRegroup(h: string, u: string, c: string, nl: string, name: string, el: string, email: string,
                    p: string, k: string, mh: string, m: string, a: string, rule: string, sig: string, pad: string)
    ensures "\n" + h + "\n" + u + "\n" + "\n" + c + "\n" + nl + name + "\n" + el + email + "\n" + p + "\n" + k
            + "\n" + "\n" + mh + "\n" + m + "\n" + "\n" + a + "\n" + "\n" + rule + "\n" + sig + "\n" + pad
         == ("\n" + h + "\n" + u + "\n" + "\n" + c + "\n" + nl + name + "\n" + el + email + "\n" + p + "\n" + k
            + "\n" + "\n" + mh) + "\n" + (m + "\n" + "\n" + a + "\n" + "\n" + rule + "\n" + sig + "\n" + pad)
  {
  }

  /** The right-nested form of the contact card. */
  lemma HeadNesting(h: string, u: string, c: string, nl: string, name: string, el: string, email: string,
                    p: string, k: string, mh: string)
    ensures "\n" + h + "\n" + u + "\n" + "\n" + c + "\n" + nl + name + "\n" + el + email + "\n" + p + "\n" + k
            + "\n" + "\n" + mh
         == "" + "\n" + (h + "\n" + (u + "\n" + ("" + "\n" + (c + "\n" + ((nl + name) + "\n"
            + ((el + email) + "\n" + (p + "\n" + (k + "\n" + ("" + "\n" + mh)))))))))
  {
  }

  /** The lines of the contact card: one per piece. */
  lemma HeadLines(h: string, u: string, c: string, nl: string, name: string, el: string, email: string,
                  p: string, k: string, mh: string)
    requires '\n' !in h && '\n' !in u && '\n' !in c && '\n' !in nl + name && '\n' !in el + email
    requires '\n' !in p && '\n' !in k && '\n' !in mh
    ensures Split("\n" + h + "\n" + u + "\n" + "\n" + c + "\n" + nl + name + "\n" + el + email + "\n" + p + "\n" + k
                  + "\n" + "\n" + mh, '\n')
         == ["", h, u, "", c, nl + name, el + email, p, k, "", mh]
  {
    CardTail(el + email, p, k, mh);
    CardTop(h, u, c, nl + name, (el + email) + "\n" + (p + "\n" + (k + "\n" + ("" + "\n" + mh))));
    HeadNesting(h, u, c, nl, name, el, email, p, k, mh);
  }

  /** The card's last lines, right-nested. */
  lemma CardTail(e: string, p: string, k: string, mh: string)
    requires '\n' !in e && '\n' !in p && '\n' !in k && '\n' !in mh
    ensures Split(e + "\n" + (p + "\n" + (k + "\n" + ("" + "\n" + mh))), '\n') == [e, p, k, "", mh]
  {
    var r9 := "" + "\n" + mh;
    var r8 := k + "\n" + r9;
    var r7 := p + "\n" + r8;
    SplitLine(mh, '\n');
    LineThen("", mh);
    LineThen(k, r9);
    LineThen(p, r8);
    LineThen(e, r7);
  }

  /** The card's first lines before any right-nested rest. */
  lemma CardTop(h: string, u: string, c: string, n: string, rest: string)
    requires '\n' !in h && '\n' !in u && '\n' !in c && '\n' !in n
    ensures Split("" + "\n" + (h + "\n" + (u + "\n" + ("" + "\n" + (c + "\n" + (n + "\n" + rest))))), '\n')
         == ["", h, u, "", c, n] + Split(rest, '\n')
  {
    var r5 := n + "\n" + rest;
    var r4 := c + "\n" + r5;
    var r3 := "" + "\n" + r4;
    var r2 := u + "\n" + r3;
    var r1 := h + "\n" + r2;
    LineThen(n, rest);
    LineThen(c, r5);
    LineThen("", r4);
    LineThen(u, r3);
    LineThen(h, r2);
    LineThen("", r1);
  }

  /** The attachment section and the signature block, right-nested. */
  lemma SignatureLines(a: string, rule: string, sig: string, pad: string)
    requires '\n' !in rule && '\n' !in sig && '\n' !in pad
    ensures Split(a + "\n" + ("" + "\n" + (rule + "\n" + (sig + "\n" + pad))), '\n')
         == Split(a, '\n') + ["", rule, sig, pad]
  {
    var r4 := sig + "\n" + pad;
    var r3 := rule + "\n" + r4;
    SplitLine(pad, '\n');
    LineThen(sig, pad);
    LineThen(rule, r4);
    LineThen("", r3);
    SplitAround(a, "" + "\n" + r3, '\n');
  }

  /** The lines after the contact card: the message's own lines, a blank line, the
      attachment section's lines, and the signature block. */
  lemma RestLines(m: string, a: string, rule: string, sig: string, pad: string)
    requires '\n' !in rule && '\n' !in sig && '\n' !in pad
    ensures Split(m + "\n" + "\n" + a + "\n" + "\n" + rule + "\n" + sig + "\n" + pad, '\n')
         == Split(m, '\n') + [""] + Split(a, '\n') + ["", rule, sig, pad]
  {
    var r1 := a + "\n" + ("" + "\n" + (rule + "\n" + (sig + "\n" + pad)));
    SignatureLines(a, rule, sig, pad);
    LineThen("", r1);
    SplitAround(m, "" + "\n" + r1, '\n');
    RestNesting(m, a, rule, sig, pad);
  }

  lemma RestNesting(m: string, a: string, rule: string, sig: string, pad: string)
    ensures m + "\n" + "\n" + a + "\n" + "\n" + rule + "\n" + sig + "\n" + pad
         == m + "\n" + ("" + "\n" + (a + "\n" + ("" + "\n" + (rule + "\n" + (sig + "\n" + pad)))))
  {
  }

  /** The attachment section's lines: a blank line, the heading, one line per image,
      and a blank line; none at all without images. */
  function AttachmentSection(d: Inquiry): seq<string> {
    if HasImages(d) then ["", AttachmentsHeading] + AttachmentLines(d.images.value) + [""] else [""]
  }

  lemma AttachmentSectionLines(d: Inquiry)
    ensures Split(TextAttachments(d), '\n') == AttachmentSection(d)
  {
    if HasImages(d) {
      AttachmentListLines(d.images.value);
      assert '\n' !in AttachmentsHeading;
      SectionLines(AttachmentsHeading, AttachmentList(d.images.value));
    }
  }

  /** A heading line and a list between two line breaks, for any single-line heading. */
  lemma SectionLines(h: string, list: string)
    requires '\n' !in h
    ensures Split("\n" + h + "\n" + list + "\n", '\n') == ["", h] + Split(list, '\n') + [""]
  {
    var r2 := list + "\n" + "";
    SplitAround(list, "", '\n');
    var r1 := h + "\n" + r2;
    LineThen(h, r2);
    LineThen("", r1);
    SectionNesting(h, list);
  }

  lemma SectionNesting(h: string, list: string)
    ensures "\n" + h + "\n" + list + "\n" == "" + "\n" + (h + "\n" + (list + "\n" + ""))
  {
  }

  /** The whole text's lines, for any pieces in the template's places. */
  lemma LayoutLines(h: string, u: string, c: string, nl: string, name: string, el: string, email: string,
                    p: string, k: string, mh: string, m: string, a: string, rule: string, sig: string, pad: string)
    requires '\n' !in h && '\n' !in u && '\n' !in c && '\n' !in nl + name && '\n' !in el + email
    requires '\n' !in p && '\n' !in k && '\n' !in mh && '\n' !in rule && '\n' !in sig && '\n' !in pad
    ensures Split("\n" + h + "\n" + u + "\n" + "\n" + c + "\n" + nl + name + "\n" + el + email + "\n" + p + "\n" + k
                  + "\n" + "\n" + mh + "\n" + m + "\n" + "\n" + a + "\n" + "\n" + rule + "\n" + sig + "\n" + pad, '\n')
         == ["", h, u, "", c, nl + name, el + email, p, k, "", mh]
            + Split(m, '\n') + [""] + Split(a, '\n') + ["", rule, sig, pad]
  {
    TextRegroup(h, u, c, nl, name, el, email, p, k, mh, m, a, rule, sig, pad);
    var head := "\n" + h + "\n" + u + "\n" + "\n" + c + "\n" + nl + name + "\n" + el + email + "\n" + p + "\n" + k
                + "\n" + "\n" + mh;
    var rest := m + "\n" + "\n" + a + "\n" + "\n" + rule + "\n" + sig + "\n" + pad;
    SplitAround(head, rest, '\n');
    HeadLines(h, u, c, nl, name, el, email, p, k, mh);
    RestLines(m, a, rule, sig, pad);
  }

  /** The template's fixed lines are single lines. */
  lemma HeadingsSingle()
    ensures '\n' !in Heading && '\n' !in Underline && '\n' !in ContactHeading && '\n' !in MessageHeading
  {
  }

  lemma LabelsSingle()
    ensures '\n' !in NameLabel && '\n' !in EmailLabel && '\n' !in Rule && '\n' !in TextIndent
  {
  }

  lemma SignatureSingle()
    ensures '\n' !in Signature
  {
  }

  /** The line layout of the text rendering, for single-line name, email and phone:
      the contact card (with an empty line where the phone or the image count is
      missing), the message's lines, and the attachment section. */
  lemma TextLayout(d: Inquiry)
    requires '\n' !in FullName(d) && '\n' !in d.email
    requires d.phone.Some? ==> '\n' !in d.phone.value
    ensures Split(Text(d), '\n')
         == ["", Heading, Underline, "", ContactHeading, NameLabel + FullName(d), EmailLabel + d.email,
             TextPhone(d), TextCount(d), "", MessageHeading]
            + Split(d.message, '\n') + [""] + AttachmentSection(d) + ["", Rule, Signature, TextIndent]
  {
    HeadingsSingle();
    LabelsSingle();
    SignatureSingle();
    if HasImages(d) {
      DigitsHaveNo(NatStr(ImageCount(d)), '\n');
    }
    assert '\n' !in TextCount(d) && '\n' !in TextPhone(d);
    assert '\n' !in NameLabel + FullName(d) && '\n' !in EmailLabel + d.email;
    LayoutLines(Heading, Underline, ContactHeading, NameLabel, FullName(d), EmailLabel, d.email, TextPhone(d),
                TextCount(d), MessageHeading, d.message, TextAttachments(d), Rule, Signature, TextIndent);
    AttachmentSectionLines(d);
  }
}
