/** Logging.cpp's qtMessageHandler: every Qt log message becomes one
    structured record, at the matching severity, with the source file, line
    and Qt category as attributes. Installing the handler is left out; a
    call of the handler is the function from its arguments to the record
    it logs. */
module Logging {
  import opened Wrappers

  /** QtMsgType. */
  datatype QtMsgType = QtDebugMsg | QtInfoMsg | QtWarningMsg | QtCriticalMsg | QtFatalMsg

  /** The slog++ levels the handler logs at. */
  datatype Level = Debug | Info | Warn | Error | Fatal

  /** QMessageLogContext: file and category are C strings that may be
      null. */
  datatype LogContext = LogContext(file: Option<string>, line: int, category: Option<string>)

  datatype Attribute = StringAttr(key: string, text: string) | IntAttr(key: string, number: int)

  datatype Record = Record(level: Level, message: string, attributes: seq<Attribute>)

  /** The severity mapping of the handler's switch. */
  function LevelOf(t: QtMsgType): Level
  {
    match t
    case QtDebugMsg => Debug
    case QtInfoMsg => Info
    case QtWarningMsg => Warn
    case QtCriticalMsg => Error
    case QtFatalMsg => Fatal
  }

  /** The Qt message type a level comes from. */
  function QtTypeOf(level: Level): QtMsgType
  {
    match level
    case Debug => QtDebugMsg
    case Info => QtInfoMsg
    case Warn => QtWarningMsg
    case Error => QtCriticalMsg
    case Fatal => QtFatalMsg
  }

  /** The mapping is a bijection: no two Qt types share a level and every
      level is reached. */
  lemma LevelRoundTrip(t: QtMsgType, level: Level)
    ensures QtTypeOf(LevelOf(t)) == t
    ensures LevelOf(QtTypeOf(level)) == level
  {
  }

  lemma LevelInjective(a: QtMsgType, b: QtMsgType)
    ensures LevelOf(a) == LevelOf(b) <==> a == b
  {
    LevelRoundTrip(a, Debug);
    LevelRoundTrip(b, Debug);
  }

  /** The handler's switch, case by case: exactly one record per message,
      at Debug, Info, Warn, Error or Fatal. */
  lemma SeverityTable(context: LogContext, message: string)
    ensures Handle(QtDebugMsg, context, message).level == Debug
    ensures Handle(QtInfoMsg, context, message).level == Info
    ensures Handle(QtWarningMsg, context, message).level == Warn
    ensures Handle(QtCriticalMsg, context, message).level == Error
    ensures Handle(QtFatalMsg, context, message).level == Fatal
  {
  }

  /** The value of the first attribute with a key. */
  function Lookup(attributes: seq<Attribute>, key: string): (a: Option<Attribute>)
    ensures a.Some? ==> a.value.key == key && a.value in attributes
    ensures a.None? ==> forall i :: 0 <= i < |attributes| ==> attributes[i].key != key
  {
    if attributes == [] then None
    else if attributes[0].key == key then Some(attributes[0])
    else Lookup(attributes[1..], key)
  }

  /** qtMessageHandler: one record, at the level of the message type,
      carrying the message unchanged. */
  function Handle(t: QtMsgType, context: LogContext, message: string): (r: Record)
    ensures r.level == LevelOf(t) && r.message == message
  {
    var fileAttr := StringAttr("file", if context.file.Some? then context.file.value else "");
    var lineAttr := IntAttr("line", if context.line > 0 then context.line else 0);
    var categoryAttr := StringAttr("qt_category", if context.category.Some? then context.category.value else "");
    Record(LevelOf(t), message, [fileAttr, lineAttr, categoryAttr])
  }

  /** The record's attributes: the file, or "" when the context has none;
      the line when it is positive, otherwise 0; the category, or "" when
      the context has none. Nothing else is attached. */
  lemma HandleAttributes(t: QtMsgType, context: LogContext, message: string)
    ensures var r := Handle(t, context, message);
            && |r.attributes| == 3
            && Lookup(r.attributes, "file") == Some(StringAttr("file", context.file.GetOr("")))
            && Lookup(r.attributes, "line") == Some(IntAttr("line", if context.line > 0 then context.line else 0))
            && Lookup(r.attributes, "qt_category") == Some(StringAttr("qt_category", context.category.GetOr("")))
  {
    var r := Handle(t, context, message);
    assert r.attributes[1..][0].key == "line";
    assert r.attributes[1..][1..][0].key == "qt_category";
  }

  /** The line attribute is never negative, and it is the context's line
      exactly when that line is positive. */
  lemma LineAttribute(t: QtMsgType, context: LogContext, message: string)
    ensures var line := Handle(t, context, message).attributes[1].number;
            line >= 0 && (line == context.line <==> context.line >= 0)
  {
  }

  /** The test suite's release-build expectations: qDebug and qCritical,
      with no file, no line and the "default" category. */
  lemma ReleaseBuildRecords()
    ensures var r := Handle(QtDebugMsg, LogContext(None, 0, Some("default")), "debug is hooked");
            r == Record(Debug, "debug is hooked",
                        [StringAttr("file", ""), IntAttr("line", 0), StringAttr("qt_category", "default")])
    ensures Handle(QtCriticalMsg, LogContext(None, 0, Some("default")), "critical is hooked").level == Error
    ensures Handle(QtWarningMsg, LogContext(None, 0, Some("default")), "warning is hooked").level == Warn
  {
  }
}
