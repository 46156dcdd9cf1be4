/** The Architecture and Dataflow sections of the Word export. Each builds its
    list of paragraphs by pushing a level-1 heading, then, when the section has
    them, an introduction (its markdown converted to paragraphs) and a diagram
    image. The markdown converter and the image fetcher are parameters. */
module Docx {
  import opened JsSemantics

  datatype HeadingLevel = Heading1 | Heading2

  /** A paragraph of the document: a heading, an image of the given size, or
      text as the markdown converter produces it. */
  datatype Paragraph =
    | Heading(level: HeadingLevel, text: string)
    | Image(data: seq<bv8>, width: real, height: real)
    | Text(runs: seq<string>)

  /** What `fetchImage` returns: the image's bytes and its size. */
  datatype FetchedImage = FetchedImage(image: seq<bv8>, width: real, height: real)

  /** The `architecture` or `dataflow` part of the exported data. */
  datatype SectionInfo = SectionInfo(description: Option<string>, image: Option<string>)

  /** The exported data, with the two parts these sections read. */
  datatype DataExchangeFormat = DataExchangeFormat(architecture: Option<SectionInfo>,
                                                   dataflow: Option<SectionInfo>)

  predicate HasDescription(info: Option<SectionInfo>) {
    info.Some? && Truthy(info.value.description)
  }

  predicate HasImage(info: Option<SectionInfo>) {
    info.Some? && Truthy(info.value.image)
  }

  /** The layout a section builder promises: the level-1 title first; with a
      description, a level-2 'Introduction' and every converted paragraph in
      order; with an image, a level-2 diagram heading and one image paragraph
      sized as fetched, last; nothing else. */
  ghost predicate SectionLayout(children: seq<Paragraph>, title: string, diagramTitle: string,
                                info: Option<SectionInfo>,
                                convertMarkdown: string -> seq<Paragraph>, fetchImage: string -> FetchedImage)
  {
    var sections := if HasDescription(info) then convertMarkdown(info.value.description.value) else [];
    && |children| == 1 + (if HasDescription(info) then 1 + |sections| else 0) + (if HasImage(info) then 2 else 0)
    && children[0] == Heading(Heading1, title)
    && (HasDescription(info) ==>
          children[1] == Heading(Heading2, "Introduction") && children[2..2 + |sections|] == sections)
    && (HasImage(info) ==>
          var image := fetchImage(info.value.image.value);
          && children[|children| - 2] == Heading(Heading2, diagramTitle)
          && children[|children| - 1] == Image(image.image, image.width, image.height))
  }

  /** The body the two builders share. */
  method BuildSection(title: string, diagramTitle: string, info: Option<SectionInfo>,
                      convertMarkdown: string -> seq<Paragraph>, fetchImage: string -> FetchedImage)
    returns (children: seq<Paragraph>)
    ensures SectionLayout(children, title, diagramTitle, info, convertMarkdown, fetchImage)
  {
    children := [];
    children := children + [Heading(Heading1, title)];
    if info.Some? {
      if Truthy(info.value.description) {
        children := children + [Heading(Heading2, "Introduction")];
        var sections := convertMarkdown(info.value.description.value);
        children := children + sections;
      }
      if Truthy(info.value.image) {
        children := children + [Heading(Heading2, diagramTitle)];
        var image := fetchImage(info.value.image.value);
        children := children + [Image(image.image, image.width, image.height)];
      }
    }
  }

  /** `getArchitecture`: 'Architecture', then 'Introduction' and the converted
      description when there is a description, then 'Architecture Diagram' and
      the image when there is an image; a missing architecture gives the title alone. */
  method GetArchitecture(data: DataExchangeFormat,
                         convertMarkdown: string -> seq<Paragraph>, fetchImage: string -> FetchedImage)
    returns (children: seq<Paragraph>)
    ensures SectionLayout(children, "Architecture", "Architecture Diagram", data.architecture,
                          convertMarkdown, fetchImage)
    ensures data.architecture.None? ==> children == [Heading(Heading1, "Architecture")]
  {
    children := BuildSection("Architecture", "Architecture Diagram", data.architecture,
                             convertMarkdown, fetchImage);
  }

  /** `getDataflow`: the same layout under 'Dataflow' and 'Dataflow Diagram'. */
  method GetDataflow(data: DataExchangeFormat,
                     convertMarkdown: string -> seq<Paragraph>, fetchImage: string -> FetchedImage)
    returns (children: seq<Paragraph>)
    ensures SectionLayout(children, "Dataflow", "Dataflow Diagram", data.dataflow,
                          convertMarkdown, fetchImage)
    ensures data.dataflow.None? ==> children == [Heading(Heading1, "Dataflow")]
  {
    children := BuildSection("Dataflow", "Dataflow Diagram", data.dataflow,
                             convertMarkdown, fetchImage);
  }

  /** With both a description and an image, everything between the title and
      the diagram block is the introduction block: the introduction precedes
      the diagram. */
  lemma {:induction false} IntroductionPrecedesDiagram(children: seq<Paragraph>, title: string, diagramTitle: string,
                                                       info: Option<SectionInfo>,
                                                       convertMarkdown: string -> seq<Paragraph>,
                                                       fetchImage: string -> FetchedImage)
    requires SectionLayout(children, title, diagramTitle, info, convertMarkdown, fetchImage)
    requires HasDescription(info) && HasImage(info)
    ensures 1 < |children| - 2 && children[|children| - 2] == Heading(Heading2, diagramTitle)
    ensures children[1..|children| - 2] == [Heading(Heading2, "Introduction")] + convertMarkdown(info.value.description.value)
  {
    var sections := convertMarkdown(info.value.description.value);
    assert children[1..|children| - 2] == [children[1]] + children[2..2 + |sections|];
  }
}
