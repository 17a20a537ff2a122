/** The generation adapter (services/geminiService.ts): the prompt chosen by
    the generation type, the request sent to the image model, and the scan of
    the model's reply for the first inline image. The network call itself is
    not modelled: its reply is an input value of type ApiReply. */
module GeminiService {
  import opened Types

  const Model := "gemini-2.5-flash-image"

  const WeddingPrompt := "Create a photorealistic, beautiful, and happy wedding photo of these two people. They should be dressed in elegant modern wedding attire (a beautiful white dress for the woman and a sharp suit for the man), smiling lovingly at each other. The setting should be a romantic and picturesque outdoor location, like a garden or a beach at sunset. The final image should be high-quality and look like a professional photograph."

  const BabyPrompt := "Based on the facial features of these two people, generate a photorealistic and adorable image of what their future baby might look like as a happy and healthy toddler (around 2 years old). The image should be a clear portrait of the child's face."

  /** The Location prompt is this prefix, the location, then LocationSuffix. */
  const LocationPrefix := "Create a photorealistic, vibrant, and happy couple's photo of these two people enjoying themselves at the following location: "

  const LocationSuffix := ". They should look like they are on vacation, in love, and dressed appropriately for the location. The image should capture the essence and atmosphere of the place."

  const InvalidTypeError := "Invalid generation type"

  /** The one error every failed call is reported as. */
  const GenericApiError := "Failed to generate image due to an API error."

  const NoImageError := "No image data found in the API response."

  // ---------------------------------------------------------------------------
  // Prompt selection
  // ---------------------------------------------------------------------------

  /** The switch of getPromptForGenerationType, over the runtime value of the
      enum: any other string reaches the default branch and throws. */
  function PromptForTag(tag: string, location: Option<string>): (r: Result<string>)
    ensures r.Failure? <==> tag !in {Tag(Wedding), Tag(Baby), Tag(Location)}
    ensures r.Failure? ==> r.error == InvalidTypeError
  {
    if tag == "WEDDING" then Success(WeddingPrompt)
    else if tag == "BABY" then Success(BabyPrompt)
    else if tag == "LOCATION" then Success(LocationPrefix + (if location.Some? then location.value else "undefined") + LocationSuffix)
    else Failure(InvalidTypeError)
  }

  /** The prompt for a well-typed generation type: the switch never reaches
      its default branch for the three enum members. */
  function PromptFor(t: GenerationType, location: Option<string>): (p: string)
    ensures PromptForTag(Tag(t), location) == Success(p)
  {
    PromptForTag(Tag(t), location).value
  }

  /** Wedding and Baby have fixed prompts that do not depend on the location. */
  lemma FixedPrompts(location: Option<string>)
    ensures PromptFor(Wedding, location) == WeddingPrompt
    ensures PromptFor(Baby, location) == BabyPrompt
    ensures PromptFor(Wedding, location) != PromptFor(Baby, location)
  {
    assert |WeddingPrompt| != |BabyPrompt|;
  }

  /** The Location prompt holds the location verbatim, between a fixed prefix
      and a fixed suffix. */
  lemma LocationPromptContains(location: string)
    ensures PromptFor(Location, Some(location)) == LocationPrefix + location + LocationSuffix
    ensures var p := PromptFor(Location, Some(location));
            p[|LocationPrefix|..|LocationPrefix| + |location|] == location
  {
    var p := PromptFor(Location, Some(location));
    assert p == LocationPrefix + location + LocationSuffix;
    assert p[|LocationPrefix|..|LocationPrefix| + |location|] == (LocationPrefix + location)[|LocationPrefix|..];
  }

  /** Distinct locations give distinct prompts: the location can be read back
      from the prompt. */
  lemma LocationPromptInjective(a: string, b: string)
    ensures PromptFor(Location, Some(a)) == PromptFor(Location, Some(b)) <==> a == b
  {
    if PromptFor(Location, Some(a)) == PromptFor(Location, Some(b)) {
      LocationPromptContains(a);
      LocationPromptContains(b);
      var p := PromptFor(Location, Some(a));
      assert |a| == |b| by {
        assert |p| == |LocationPrefix| + |a| + |LocationSuffix|;
        assert |p| == |LocationPrefix| + |b| + |LocationSuffix|;
      }
    }
  }

  /** The switch accepts exactly the runtime values of the three enum members. */
  lemma PromptForTagAcceptsExactlyEnum(tag: string, location: Option<string>)
    ensures PromptForTag(tag, location).Success? <==> exists t :: Tag(t) == tag
  {
    if PromptForTag(tag, location).Success? {
      if tag == "WEDDING" {
        assert Tag(Wedding) == tag;
      } else if tag == "BABY" {
        assert Tag(Baby) == tag;
      } else {
        assert Tag(Location) == tag;
      }
    }
  }

  // ---------------------------------------------------------------------------
  // The request
  // ---------------------------------------------------------------------------

  /** Inline binary data: a base64 body and its media type. */
  datatype Blob = Blob(data: string, mimeType: string)

  /** A content part: it may carry inline data, text, or (in a reply) neither. */
  datatype Part = Part(inlineData: Option<Blob>, text: Option<string>)

  datatype Modality = Image

  datatype Request = Request(model: string, parts: seq<Part>, responseModalities: seq<Modality>)

  /** The image part built from an uploaded photo: read back, it is that
      photo and carries no text. */
  function ImagePart(img: ImageFile): (p: Part)
    ensures ImagesOf([p]) == [img] && TextsOf([p]) == []
  {
    Part(Some(Blob(img.base64, img.mimeType)), None)
  }

  /** The photos a list of parts carries, read back in order from its inline data. */
  function ImagesOf(parts: seq<Part>): seq<ImageFile>
  {
    if parts == [] then []
    else
      var rest := ImagesOf(parts[1..]);
      match parts[0].inlineData
      case Some(b) => [ImageFile(b.data, b.mimeType)] + rest
      case None => rest
  }

  /** The texts a list of parts carries, in order. */
  function TextsOf(parts: seq<Part>): seq<string>
  {
    if parts == [] then []
    else
      var rest := TextsOf(parts[1..]);
      match parts[0].text
      case Some(s) => [s] + rest
      case None => rest
  }

  /** The request generateImage sends: the two photos, unchanged and in order,
      then the prompt as the only text, asking for an image in reply. */
  function BuildRequest(p1: ImageFile, p2: ImageFile, t: GenerationType, location: Option<string>): (req: Request)
    ensures |req.parts| == 3
    ensures ImagesOf(req.parts) == [p1, p2]
    ensures TextsOf(req.parts) == [PromptFor(t, location)]
    ensures ImagesOf(req.parts[..2]) == [p1, p2] && TextsOf(req.parts[..2]) == []
    ensures req.model == Model && req.responseModalities == [Image]
  {
    var parts := [ImagePart(p1), ImagePart(p2), Part(None, Some(PromptFor(t, location)))];
    assert parts[1..][1..] == parts[2..] == [parts[2]];
    assert parts[2..][1..] == [] && parts[2..][0] == parts[2];
    assert ImagesOf(parts[2..]) == [] && TextsOf(parts[2..]) == [parts[2].text.value];
    assert ImagesOf(parts[1..]) == [p2] && TextsOf(parts[1..]) == [parts[2].text.value];
    assert parts[..2][1..] == [parts[1]] && [parts[1]][1..] == [];
    assert ImagesOf([parts[1]]) == [p2] && TextsOf([parts[1]]) == [];
    Request(Model, parts, [Image])
  }

  // ---------------------------------------------------------------------------
  // The reply
  // ---------------------------------------------------------------------------

  datatype Content = Content(parts: Option<seq<Part>>)

  datatype Candidate = Candidate(content: Option<Content>)

  /** What the awaited call settles with: a rejection (transport, key, quota,
      malformed reply), or a reply whose fields may each be missing. */
  datatype ApiReply = Rejected(reason: string) | Resolved(candidates: Option<seq<Candidate>>)

  /** `candidates?.[0]?.content?.parts || []`: the parts of the first
      candidate, or none when anything on the way is missing. */
  function ReplyParts(candidates: Option<seq<Candidate>>): (parts: seq<Part>)
    ensures parts != [] ==>
      candidates.Some? && candidates.value != [] && candidates.value[0].content.Some? &&
      candidates.value[0].content.value.parts == Some(parts)
    ensures (candidates.Some? && candidates.value != [] && candidates.value[0].content.Some? &&
             candidates.value[0].content.value.parts.Some?) ==>
      parts == candidates.value[0].content.value.parts.value
  {
    match candidates
    case None => []
    case Some(cs) =>
      if cs == [] then []
      else match cs[0].content
        case None => []
        case Some(c) => match c.parts
          case None => []
          case Some(ps) => ps
  }

  /** The data of the first part that carries inline data, if any. */
  function FirstInlineData(parts: seq<Part>): (d: Option<string>)
    ensures d.Some? ==> exists p :: p in parts && p.inlineData.Some? && p.inlineData.value.data == d.value
  {
    if parts == [] then None
    else if parts[0].inlineData.Some? then Some(parts[0].inlineData.value.data)
    else FirstInlineData(parts[1..])
  }

  /** What generateImage settles with for a given reply: the first inline
      image, or the generic error for every failure. */
  function DecodeReply(reply: ApiReply): (r: Result<string>)
    ensures r.Failure? ==> r.error == GenericApiError
    ensures r.Success? <==> reply.Resolved? && FirstInlineData(ReplyParts(reply.candidates)).Some?
    ensures r.Success? ==> FirstInlineData(ReplyParts(reply.candidates)) == Some(r.value)
  {
    match reply
    case Rejected(_) => Failure(GenericApiError)
    case Resolved(cs) =>
      match FirstInlineData(ReplyParts(cs))
      case Some(d) => Success(d)
      case None => Failure(GenericApiError)
  }

  /** The first inline data is that of the earliest part carrying inline
      data, and it is absent exactly when no part carries any. */
  lemma {:induction false} FirstInlineDataIsFirst(parts: seq<Part>, d: string)
    ensures FirstInlineData(parts) == Some(d) <==>
      exists k :: 0 <= k < |parts| && parts[k].inlineData.Some? && parts[k].inlineData.value.data == d &&
        forall j :: 0 <= j < k ==> parts[j].inlineData.None?
  {
    if parts == [] {
    } else if parts[0].inlineData.Some? {
      if FirstInlineData(parts) == Some(d) {
        assert parts[0].inlineData.value.data == d;
      }
    } else {
      FirstInlineDataIsFirst(parts[1..], d);
      if FirstInlineData(parts) == Some(d) {
        var k :| 0 <= k < |parts[1..]| && parts[1..][k].inlineData.Some? && parts[1..][k].inlineData.value.data == d &&
          forall j :: 0 <= j < k ==> parts[1..][j].inlineData.None?;
        assert forall j :: 0 <= j < k + 1 ==> parts[j].inlineData.None? by {
          forall j | 0 <= j < k + 1 ensures parts[j].inlineData.None? {
            if j > 0 { assert parts[j] == parts[1..][j - 1]; }
          }
        }
      }
      if exists k :: (0 <= k < |parts| && parts[k].inlineData.Some? && parts[k].inlineData.value.data == d &&
        forall j :: 0 <= j < k ==> parts[j].inlineData.None?) {
        var k :| 0 <= k < |parts| && parts[k].inlineData.Some? && parts[k].inlineData.value.data == d &&
          forall j :: 0 <= j < k ==> parts[j].inlineData.None?;
        assert k > 0;
        assert parts[1..][k - 1] == parts[k];
        assert forall j :: 0 <= j < k - 1 ==> parts[1..][j].inlineData.None? by {
          forall j | 0 <= j < k - 1 ensures parts[1..][j].inlineData.None? {
            assert parts[1..][j] == parts[j + 1];
          }
        }
      }
    }
  }

  /** No inline data is found exactly when no part carries any. */
  lemma {:induction false} FirstInlineDataAbsent(parts: seq<Part>)
    ensures FirstInlineData(parts).None? <==> forall k :: 0 <= k < |parts| ==> parts[k].inlineData.None?
  {
    if parts != [] {
      FirstInlineDataAbsent(parts[1..]);
      assert forall k :: 1 <= k < |parts| ==> parts[k] == parts[1..][k - 1];
    }
  }

  /** Once a part with inline data has been found, later parts are ignored. */
  lemma {:induction false} LaterPartsIgnored(parts: seq<Part>, later: seq<Part>)
    requires FirstInlineData(parts).Some?
    ensures FirstInlineData(parts + later) == FirstInlineData(parts)
  {
    if parts[0].inlineData.None? {
      assert (parts + later)[1..] == parts[1..] + later;
      LaterPartsIgnored(parts[1..], later);
    }
  }

  /** A reply without candidates, content or parts fails like a rejected call. */
  lemma MissingContentFails(candidates: Option<seq<Candidate>>)
    requires candidates.None? || candidates.value == [] || candidates.value[0].content.None?
             || candidates.value[0].content.value.parts.None?
    ensures DecodeReply(Resolved(candidates)) == DecodeReply(Rejected(NoImageError))
    ensures DecodeReply(Resolved(candidates)) == Failure(GenericApiError)
  {
  }

  /** Conversely, a resolved reply whose first candidate carries an inline
      part succeeds with the data of the earliest such part; the candidates
      after the first are never looked at. */
  lemma FirstCandidateImageSucceeds(ps: seq<Part>, more: seq<Candidate>, k: nat)
    requires k < |ps| && ps[k].inlineData.Some?
    requires forall j :: 0 <= j < k ==> ps[j].inlineData.None?
    ensures DecodeReply(Resolved(Some([Candidate(Some(Content(Some(ps))))] + more))) ==
      Success(ps[k].inlineData.value.data)
  {
    FirstInlineDataIsFirst(ps, ps[k].inlineData.value.data);
  }

  /** generateImage: builds the request, hands it to the model (whose reply is
      the input `reply`), then scans the reply's parts in order and returns
      the first inline data; every error, including finding no image, is
      re-thrown as GenericApiError. */
  method GenerateImage(p1: ImageFile, p2: ImageFile, t: GenerationType, location: Option<string>, reply: ApiReply)
    returns (request: Request, result: Result<string>)
    ensures request == BuildRequest(p1, p2, t, location)
    ensures result == DecodeReply(reply)
  {
    var prompt := PromptFor(t, location);
    var imagePart1 := ImagePart(p1);
    var imagePart2 := ImagePart(p2);
    var textPart := Part(None, Some(prompt));
    request := Request(Model, [imagePart1, imagePart2, textPart], [Image]);

    var attempt: Result<string> := Failure(NoImageError);
    match reply {
      case Rejected(reason) =>
        attempt := Failure(reason);
      case Resolved(candidates) =>
        var parts := ReplyParts(candidates);
        var i := 0;
        while i < |parts|
          invariant 0 <= i <= |parts|
          invariant FirstInlineData(parts) == FirstInlineData(parts[i..])
          invariant attempt == Failure(NoImageError)
        {
          if parts[i].inlineData.Some? {
            attempt := Success(parts[i].inlineData.value.data);
            break;
          }
          assert parts[i..][1..] == parts[i + 1..];
          i := i + 1;
        }
    }
    if attempt.Failure? {
      result := Failure(GenericApiError);
    } else {
      result := attempt;
    }
  }
}
