/** The part of an HTTP servlet request the dispatch core touches: its URI, servlet
    path and method, which are read, and its attribute map, which the handler mappings
    write. */
module Servlet {
  import opened Common

  /** The values the handler mappings store as request attributes. */
  datatype AttributeValue =
    | Text(text: string)
    | Variables(vars: map<string, string>)
    | MediaTypeSet(types: set<string>)

  const HandlerMappingClass: string := "org.springframework.web.servlet.HandlerMapping"

  /** `HandlerMapping.BEST_MATCHING_PATTERN_ATTRIBUTE`. */
  const BestMatchingPatternAttribute: string := HandlerMappingClass + ".bestMatchingPattern"

  /** `HandlerMapping.URI_TEMPLATE_VARIABLES_ATTRIBUTE`. */
  const UriTemplateVariablesAttribute: string := HandlerMappingClass + ".uriTemplateVariables"

  /** `HandlerMapping.PRODUCIBLE_MEDIA_TYPES_ATTRIBUTE`. */
  const ProducibleMediaTypesAttribute: string := HandlerMappingClass + ".producibleMediaTypes"

  /** What a request matcher may look at: the immutable request line (`getRequestURI`,
      `getServletPath`, and `getMethod`, which may be null). */
  datatype RequestLine = RequestLine(requestUri: string, servletPath: string, httpMethod: Option<string>)

  class Request {
    const line: RequestLine
    var attributes: map<string, AttributeValue>

    constructor (line: RequestLine)
      ensures this.line == line && attributes == map[]
    {
      this.line := line;
      attributes := map[];
    }

    /** `getServletPath`. */
    function ServletPath(): string {
      line.servletPath
    }

    /** `setAttribute`: the one name now maps to the value, every other is kept. */
    method SetAttribute(name: string, value: AttributeValue)
      modifies this
      ensures attributes == old(attributes)[name := value]
    {
      attributes := attributes[name := value];
    }
  }
}
