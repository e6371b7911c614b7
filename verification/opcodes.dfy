/**
 The controller's command table (epd/waveshare_driver.go:12-43). Each command is a
 single opcode byte; the driver never changes them at run time, so they are constants.
 */
module Opcodes {
  import opened Wire

  const PanelSetting: byte := 0x00
  const PowerSetting: byte := 0x01
  const PowerOff: byte := 0x02
  const PowerOffSequenceSetting: byte := 0x03
  const PowerOn: byte := 0x04
  const PowerOnMeasure: byte := 0x05
  const BoosterSoftStart: byte := 0x06
  const DeepSleep: byte := 0x07
  const DisplayStartTransmission1: byte := 0x10
  const DataStop: byte := 0x11
  const DisplayRefresh: byte := 0x12
  const DisplayStartTransmission2: byte := 0x13
  const DualSpi: byte := 0x15
  const AutoSequence: byte := 0x17
  const KwLutOption: byte := 0x2B
  const PllControl: byte := 0x30
  const TemperatureSensorCalibration: byte := 0x40
  const TemperatureSensorSelection: byte := 0x41
  const TemperatureSensorWrite: byte := 0x42
  const TemperatureSensorRead: byte := 0x43
  const PanelBreakCheck: byte := 0x44
  const VcomAndDataIntervalSetting: byte := 0x50
  const LowerPowerDetection: byte := 0x51
  const EndVoltageSetting: byte := 0x52
  const TconSetting: byte := 0x60
  const ResolutionSetting: byte := 0x61
  const GateSourceStartSetting: byte := 0x65
  const Revision: byte := 0x70
  const GetStatus: byte := 0x71
  const AutoMeasurementVcom: byte := 0x80
  const ReadVcomValue: byte := 0x81
  const VcomDcSetting: byte := 0x82
}
